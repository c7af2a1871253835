/** The durable account state, the live sessions, and what every account operation makes of them.
    One operation is one atomic step: its database transaction, and the session change after the commit. */
module AccountModel {
  import opened Support
  import opened Text

  /** An identifier is a UUID, read as the 128-bit number it is; a verifier is a digest. */
  datatype Uuid = Uuid(number: int)
  type AccountId = Uuid
  type TokenId = Uuid
  type Digest = int

  /** Text that the accounts only store and compare: blank, or one of countless values, which may agree with
      another in all but letter case. */
  datatype Atom = Blank | Atom(code: int, folded: int)

  const DEFAULT_ADMIN: AccountId := Uuid(0x0000_0000_0000_4000_8000_0000_0000_0001)
  const DEFAULT_INTEGRATION: AccountId := Uuid(0x0000_0000_0000_4000_8000_0000_0000_0002)
  const MAX_USERNAME := 256

  datatype Role = Admin | User | ReadOnly | Integration
  datatype Protection = Ordinary | DefaultAdmin | DefaultIntegration

  /** An email and where it came from: `known` says that its verification is known, `entered` that the
      account typed it in itself. */
  datatype Email = Email(address: Atom, verified: bool, known: bool, entered: bool)

  datatype Account = Account(
    role: Role, enabled: bool, deleted: bool, mergedInto: Option<AccountId>,
    protection: Protection, generation: nat, email: Email)
  {
    predicate Live() { !deleted && mergedInto.None? }
    predicate Active() { enabled && Live() }
  }

  /** `verifier` is a usable password hash, or nothing when no password is stored. */
  datatype Credential = Credential(username: string, verifier: Option<Digest>)
  datatype Identity = Identity(issuer: Atom, subject: Atom)
  /** `client` is absent only on a token issued before external clients existed. */
  datatype Token = Token(account: AccountId, verifier: Digest, revoked: bool, client: Option<TokenId>)
  datatype Demand = Demand(account: AccountId, transfer: nat, withdrawn: bool)

  datatype Db = Db(
    accounts: map<AccountId, Account>,
    credentials: map<AccountId, Credential>,
    bindings: map<Identity, AccountId>,
    tokens: map<TokenId, Token>,
    demands: map<int, Demand>)

  datatype Session = Session(account: AccountId, role: Role, generation: nat, expires: int)
  datatype Settings = Settings(password: bool, oidc: bool, issuer: Atom)
  datatype State = State(db: Db, sessions: map<int, Session>, clock: int, settings: Settings)

  /** A password argument: none, one below the minimum length, or one whose hash is ready. */
  datatype Password = NoPassword | TooShort | Prepared(verifier: Digest)
  /** The email an identity provider's claims offer, and what they state about its verification. */
  datatype Claim = Claim(address: Atom, verified: Option<bool>)

  datatype Edit = Edited(db: Db) | Rejected
  datatype Reply = Done | Refused | Withdrawn(transfers: set<nat>) | SignsInAs(account: Option<AccountId>)
  datatype Result = Result(state: State, reply: Reply)

  // ---- sign-in facts ------------------------------------------------------------------------------

  function Issuer(settings: Settings): Atom {
    if settings.oidc then settings.issuer else Blank
  }

  predicate HasPassword(db: Db, a: AccountId) {
    a in db.credentials && db.credentials[a].verifier.Some?
  }

  predicate BoundUnder(db: Db, a: AccountId, issuer: Atom) {
    exists i | i in db.bindings :: db.bindings[i] == a && i.issuer == issuer
  }

  /** Account `a` is an active Admin that can sign in under `settings`. */
  predicate UsableAdmin(db: Db, a: AccountId, settings: Settings) {
    && a in db.accounts && db.accounts[a].role == Admin && db.accounts[a].Active()
    && ((settings.password && HasPassword(db, a)) || (Issuer(settings) != Blank && BoundUnder(db, a, Issuer(settings))))
  }

  predicate UsableAdminExists(db: Db, settings: Settings) {
    !(settings.password || settings.oidc) || exists a | a in db.accounts :: UsableAdmin(db, a, settings)
  }

  // ---- the merge forest ---------------------------------------------------------------------------

  /** Follows merge redirections from `current`, stopping at an identity in `seen`. */
  function CanonicalFrom(accounts: map<AccountId, Account>, current: AccountId, seen: set<AccountId>): AccountId
    decreases accounts.Keys - seen
  {
    if current in seen || current !in accounts || accounts[current].mergedInto.None? then current
    else CanonicalFrom(accounts, accounts[current].mergedInto.value, seen + {current})
  }

  function Canonical(accounts: map<AccountId, Account>, a: AccountId): AccountId {
    CanonicalFrom(accounts, a, {})
  }

  /** The account and every account merged into it, directly or not. */
  function Owned(accounts: map<AccountId, Account>, a: AccountId): set<AccountId> {
    {a} + set x | x in accounts && accounts[x].mergedInto.Some? && Canonical(accounts, x) == a
  }

  // ---- the shared parts of an operation -----------------------------------------------------------

  function Touch(db: Db, touched: set<AccountId>): Db {
    db.(accounts := map a | a in db.accounts ::
      if a in touched then db.accounts[a].(generation := db.accounts[a].generation + 1) else db.accounts[a])
  }

  function Revoke(sessions: map<int, Session>, touched: set<AccountId>): map<int, Session> {
    map k | k in sessions && sessions[k].account !in touched :: sessions[k]
  }

  /** The unexpired sessions of an account take its current role and generation; those of an account that
      is not active end. */
  function Rebind(db: Db, sessions: map<int, Session>, clock: int, a: AccountId): map<int, Session> {
    if a !in db.accounts || !db.accounts[a].Active() then Revoke(sessions, {a})
    else
      map k | k in sessions ::
        if sessions[k].account == a && sessions[k].expires > clock
        then sessions[k].(role := db.accounts[a].role, generation := db.accounts[a].generation)
        else sessions[k]
  }

  /** One guarded account change: refused when it would be the change that leaves no usable Admin. */
  function Mutate(s: State, edit: Edit, touched: set<AccountId>, next: Settings): Result {
    if edit.Rejected? then Result(s, Refused)
    else if UsableAdminExists(s.db, s.settings) && !UsableAdminExists(edit.db, next) then Result(s, Refused)
    else Result(State(Touch(edit.db, touched), Revoke(s.sessions, touched), s.clock, next), Done)
  }

  /** A change of authority only: sessions are re-bound rather than ended. */
  function MutateRole(s: State, edit: Edit, a: AccountId): Result {
    if edit.Rejected? then Result(s, Refused)
    else if UsableAdminExists(s.db, s.settings) && !UsableAdminExists(edit.db, s.settings) then Result(s, Refused)
    else
      var db := Touch(edit.db, {a});
      Result(State(db, Rebind(db, s.sessions, s.clock, a), s.clock, s.settings), Done)
  }

  predicate LiveIn(db: Db, a: AccountId) {
    a in db.accounts && db.accounts[a].Live()
  }

  predicate UsernameTaken(db: Db, name: string, except: AccountId) {
    exists o | o in db.credentials :: o != except && db.credentials[o].username == name
  }

  /** Creates or replaces the one credential of `a`; an absent argument keeps what is stored. */
  function SetPasswordRow(db: Db, a: AccountId, username: Option<string>, verifier: Option<Digest>): Edit {
    var stored := if a in db.credentials then db.credentials[a] else Credential("", None);
    var name := Trim(username.GetOr(stored.username));
    if name == "" || |name| > MAX_USERNAME || UsernameTaken(db, name, a) then Rejected
    else Edited(db.(credentials := db.credentials[a := Credential(name, if verifier.Some? then verifier else stored.verifier)]))
  }

  function NewAccount(role: Role, enabled: bool, email: Email): Account {
    Account(role, enabled, false, None, Ordinary, 1, email)
  }

  const NO_EMAIL := Email(Blank, false, false, false)

  // ---- creating accounts --------------------------------------------------------------------------

  function CreateLocal(db: Db, id: AccountId, username: string, password: Password, role: Role): Edit {
    if role == Integration || password.TooShort? || id in db.accounts then Rejected
    else
      var added := db.(accounts := db.accounts[id := NewAccount(role, true, NO_EMAIL)]);
      SetPasswordRow(added, id, Some(username), if password.Prepared? then Some(password.verifier) else None)
  }

  function CreateIntegration(db: Db, id: AccountId): Edit {
    if id in db.accounts then Rejected
    else Edited(db.(accounts := db.accounts[id := NewAccount(Integration, true, NO_EMAIL)]))
  }

  // ---- the directory ------------------------------------------------------------------------------

  function ChangeRole(db: Db, actor: AccountId, a: AccountId, role: Role): Edit {
    if actor == a || !LiveIn(db, a) || db.accounts[a].protection != Ordinary
       || (db.accounts[a].role == Integration) != (role == Integration) then Rejected
    else Edited(db.(accounts := db.accounts[a := db.accounts[a].(role := role)]))
  }

  /** Every outstanding demand recorded under one of `owners` is withdrawn. */
  function WithdrawDemand(db: Db, owners: set<AccountId>): Db {
    db.(demands := map d | d in db.demands ::
      if db.demands[d].account in owners then db.demands[d].(withdrawn := true) else db.demands[d])
  }

  /** The transfers those demands were for. */
  function OutstandingTransfers(db: Db, owners: set<AccountId>): set<nat> {
    set d | d in db.demands && db.demands[d].account in owners && !db.demands[d].withdrawn :: db.demands[d].transfer
  }

  function ChangeEnabled(db: Db, actor: AccountId, a: AccountId, enabled: bool): Edit {
    if actor == a || !LiveIn(db, a) || (db.accounts[a].protection == DefaultAdmin && !enabled) then Rejected
    else
      var switched := db.(accounts := db.accounts[a := db.accounts[a].(enabled := enabled)]);
      Edited(if enabled then switched else WithdrawDemand(switched, Owned(switched.accounts, a)))
  }

  function RevokeTokensOf(tokens: map<TokenId, Token>, a: AccountId): map<TokenId, Token> {
    map t | t in tokens :: if tokens[t].account == a then tokens[t].(revoked := true) else tokens[t]
  }

  function Remove(db: Db, actor: AccountId, a: AccountId): Edit {
    if actor == a || !LiveIn(db, a) || db.accounts[a].protection != Ordinary then Rejected
    else
      var removed := db.(
        accounts := db.accounts[a := db.accounts[a].(enabled := false, deleted := true)],
        credentials := db.credentials - {a},
        tokens := RevokeTokensOf(db.tokens, a));
      Edited(WithdrawDemand(removed, Owned(removed.accounts, a)))
  }

  /** Whether `source` may be folded into `target`. */
  predicate MayFold(db: Db, source: AccountId, target: AccountId)
    requires target in db.accounts
  {
    && LiveIn(db, source) && db.accounts[source].protection == Ordinary
    && (db.accounts[source].role == Integration) == (db.accounts[target].role == Integration)
  }

  /** Every source becomes a tombstone that redirects to the target. */
  function FoldAccounts(accounts: map<AccountId, Account>, sources: set<AccountId>, target: AccountId)
    : map<AccountId, Account>
  {
    map a | a in accounts ::
      if a in sources then accounts[a].(enabled := false, deleted := true, mergedInto := Some(target)) else accounts[a]
  }

  /** The one credential among the sources, if any, goes to the target. */
  ghost function FoldCredentials(credentials: map<AccountId, Credential>, sources: set<AccountId>, target: AccountId)
    : map<AccountId, Credential>
  {
    if h :| h in sources && h in credentials then (credentials - sources)[target := credentials[h]] else credentials
  }

  function FoldBindings(bindings: map<Identity, AccountId>, sources: set<AccountId>, target: AccountId)
    : map<Identity, AccountId>
  {
    map i | i in bindings :: if bindings[i] in sources then target else bindings[i]
  }

  /** At most one of `holders` has a local credential. */
  predicate OneHolder(credentials: map<AccountId, Credential>, holders: set<AccountId>) {
    forall a, b | a in holders && b in holders && a in credentials && b in credentials :: a == b
  }

  /** All of `sources` folded into `target` at once, or nothing. */
  ghost function Merge(db: Db, actor: AccountId, sources: seq<AccountId>, target: AccountId): Edit {
    var from := Elements(sources);
    if sources == [] || actor == target || actor in sources || target in sources || !LiveIn(db, target)
       || (exists x | x in sources :: !MayFold(db, x, target)) || !OneHolder(db.credentials, from + {target}) then Rejected
    else Edited(db.(accounts := FoldAccounts(db.accounts, from, target),
                    credentials := FoldCredentials(db.credentials, from, target),
                    bindings := FoldBindings(db.bindings, from, target)))
  }

  // ---- sign-in ------------------------------------------------------------------------------------

  /** What claims state about an email's verification: nothing when they offer no email. */
  function Stated(claim: Claim): Option<bool> {
    if claim.address == Blank then None else claim.verified
  }

  function ClaimedEmail(claim: Claim): Email {
    Email(claim.address, Stated(claim) == Some(true), Stated(claim).Some?, false)
  }

  predicate SameAddress(x: Atom, y: Atom) {
    x.Atom? && y.Atom? && x.folded == y.folded
  }

  /** Claims complete an email the account lacks, and may restate the verification of the same address
      unless the account entered it itself. */
  function CompleteEmail(email: Email, claim: Claim): Email {
    if claim.address != Blank && email.address == Blank then ClaimedEmail(claim)
    else if Stated(claim).Some? && !email.entered && SameAddress(claim.address, email.address)
    then email.(verified := claim.verified.value, known := true)
    else email
  }

  function CompleteProfile(db: Db, a: AccountId, claim: Claim): Db {
    if a in db.accounts && db.accounts[a].Active()
    then db.(accounts := db.accounts[a := db.accounts[a].(email := CompleteEmail(db.accounts[a].email, claim))])
    else db
  }

  function ProvisionRole(configured: Role): Role {
    if configured in {User, ReadOnly} then configured else User
  }

  function Provision(db: Db, id: AccountId, identity: Identity, role: Role, enabled: bool, claim: Claim): Db {
    db.(accounts := db.accounts[id := NewAccount(ProvisionRole(role), enabled, ClaimedEmail(claim))],
        bindings := db.bindings[identity := id])
  }

  function Admitted(db: Db, a: AccountId): Option<AccountId> {
    if a in db.accounts && db.accounts[a].Active() then Some(a) else None
  }

  /** The account an admitted identity signs in as: its own, a new one for an identity never seen, or a
      new disabled one for an identity whose account was removed. */
  function ResolveOidc(s: State, identity: Identity, id: AccountId, role: Role, claim: Claim): Result {
    var db := s.db;
    if identity.issuer == Blank || identity.subject == Blank then Result(s, SignsInAs(None))
    else if identity !in db.bindings then
      if id in db.accounts then Result(s, Refused)
      else Result(s.(db := Provision(db, id, identity, role, true, claim)), SignsInAs(Some(id)))
    else
      var bound := db.bindings[identity];
      if bound in db.accounts && db.accounts[bound].deleted && db.accounts[bound].mergedInto.None? then
        if id in db.accounts then Result(s, Refused)
        else Result(s.(db := Provision(db, id, identity, role, false, claim)), SignsInAs(None))
      else Result(s.(db := CompleteProfile(db, bound, claim)), SignsInAs(Admitted(db, bound)))
  }

  /** A proven identity is linked to the Admin `a` who proved it, or keeps the active Admin it already has. */
  function BindVerified(s: State, identity: Identity, a: AccountId): Result {
    var db := s.db;
    var target := if identity in db.bindings then db.bindings[identity] else a;
    if identity.issuer == Blank || identity.subject == Blank || target !in db.accounts
       || !db.accounts[target].Active() || db.accounts[target].role != Admin then Result(s, SignsInAs(None))
    else Result(s.(db := db.(bindings := db.bindings[identity := target])), SignsInAs(Some(target)))
  }

  // ---- credentials --------------------------------------------------------------------------------

  function SetOwnCredential(db: Db, a: AccountId, username: Option<string>, password: Password, clear: bool): Edit {
    if (!clear && password.TooShort?) || !LiveIn(db, a) || db.accounts[a].role == Integration then Rejected
    else if clear then
      var named := if username.None? then Edited(db) else SetPasswordRow(db, a, username, None);
      if named.Rejected? || a !in named.db.credentials then named
      else Edited(named.db.(credentials := named.db.credentials[a := named.db.credentials[a].(verifier := None)]))
    else if username.Some? && Trim(username.value) == "" && password.NoPassword? then
      if HasPassword(db, a) then Rejected else Edited(db.(credentials := db.credentials - {a}))
    else SetPasswordRow(db, a, username, if password.Prepared? then Some(password.verifier) else None)
  }

  function ResetPassword(db: Db, actor: AccountId, a: AccountId, password: Password, username: Option<string>): Edit {
    if actor == a || !password.Prepared? || !LiveIn(db, a) || db.accounts[a].role == Integration then Rejected
    else SetPasswordRow(db, a, username, Some(password.verifier))
  }

  /** `proven` is the stored verifier the current password was just checked against. */
  function ChangeOwnPassword(db: Db, a: AccountId, proven: Digest, password: Password): Edit {
    if !password.Prepared? || !LiveIn(db, a) || a !in db.credentials || db.credentials[a].verifier != Some(proven)
    then Rejected
    else SetPasswordRow(db, a, None, Some(password.verifier))
  }

  /** The configuration file's credential installed on the default Admin. */
  function ImportLegacy(s: State, username: string, verifier: Option<Digest>): Result {
    var stored := if DEFAULT_ADMIN in s.db.credentials then s.db.credentials[DEFAULT_ADMIN] else Credential("", None);
    var name := if Trim(username) != "" then Trim(username) else stored.username;
    if verifier.None? || (DEFAULT_ADMIN in s.db.credentials && stored == Credential(name, verifier)) then Result(s, Done)
    else if name == "" || UsernameTaken(s.db, name, DEFAULT_ADMIN) then Result(s, Refused)
    else
      var db := s.db.(credentials := s.db.credentials[DEFAULT_ADMIN := Credential(name, verifier)]);
      Result(s.(db := Touch(db, {DEFAULT_ADMIN}), sessions := Revoke(s.sessions, {DEFAULT_ADMIN})), Done)
  }

  /** An account records or corrects its own email; `expected` is the stored one its form showed. */
  function SetOwnEmail(db: Db, a: AccountId, address: Atom, expected: Atom): Edit {
    if !LiveIn(db, a) || db.accounts[a].role == Integration then Rejected
    else
      var email := db.accounts[a].email;
      if address == Blank || email.address != expected || (email.address != Blank && !email.entered) then Rejected
      else Edited(db.(accounts := db.accounts[a := db.accounts[a].(email := Email(address, false, true, true))]))
  }

  // ---- tokens -------------------------------------------------------------------------------------

  /** The external client a token authenticates as. */
  function Client(tokens: map<TokenId, Token>, t: TokenId): TokenId
    requires t in tokens
  {
    tokens[t].client.GetOr(t)
  }

  predicate VerifierTaken(tokens: map<TokenId, Token>, verifier: Digest) {
    exists t | t in tokens :: tokens[t].verifier == verifier
  }

  /** A new token is a new client unless it succeeds another token of the same account. */
  function CreateToken(db: Db, a: AccountId, t: TokenId, verifier: Digest, succeeds: Option<TokenId>): Edit {
    if !LiveIn(db, a) || db.accounts[a].role != Integration || t in db.tokens || VerifierTaken(db.tokens, verifier)
    then Rejected
    else if succeeds.None? then Edited(db.(tokens := db.tokens[t := Token(a, verifier, false, Some(t))]))
    else
      var p := succeeds.value;
      if p !in db.tokens || db.tokens[p].account !in Owned(db.accounts, a) then Rejected
      else Edited(db.(tokens := db.tokens[p := db.tokens[p].(revoked := true)]
                                         [t := Token(a, verifier, false, Some(Client(db.tokens, p)))]))
  }

  function RevokeToken(db: Db, a: AccountId, t: TokenId): Edit {
    if t !in db.tokens || db.tokens[t].account != a || db.tokens[t].revoked then Rejected
    else Edited(db.(tokens := db.tokens[t := db.tokens[t].(revoked := true)]))
  }

  predicate Accepts(db: Db, t: TokenId, verifier: Digest)
    requires t in db.tokens && db.tokens[t].account in db.accounts
  {
    && db.tokens[t].verifier == verifier && !db.tokens[t].revoked
    && db.accounts[db.tokens[t].account].Active() && db.accounts[db.tokens[t].account].role == Integration
  }

  // ---- the state machine --------------------------------------------------------------------------

  datatype Op =
    // Guarded changes: each is checked against the last usable Admin.
    | OpCreateLocal(id: AccountId, username: string, password: Password, role: Role)
    | OpCreateIntegration(id: AccountId)
    | OpChangeRole(actor: AccountId, account: AccountId, role: Role)
    | OpChangeEnabled(actor: AccountId, account: AccountId, enabled: bool)
    | OpRemove(actor: AccountId, account: AccountId)
    | OpMerge(actor: AccountId, sources: seq<AccountId>, target: AccountId)
    | OpSetOwnCredential(account: AccountId, newUsername: Option<string>, password: Password, clear: bool, next: Settings)
    | OpResetPassword(actor: AccountId, account: AccountId, password: Password, newUsername: Option<string>)
    | OpChangeOwnPassword(account: AccountId, proven: Digest, password: Password)
    | OpSetOwnEmail(account: AccountId, address: Atom, expected: Atom)
      // Transactions of their own, which nothing guards.
    | OpResolveOidc(identity: Identity, id: AccountId, role: Role, claim: Claim)
    | OpBindVerified(identity: Identity, account: AccountId)
    | OpImportLegacy(username: string, verifier: Option<Digest>)
    | OpCreateToken(account: AccountId, token: TokenId, secret: Digest, succeeds: Option<TokenId>)
    | OpRevokeToken(account: AccountId, token: TokenId)
      // What the rest of the application does to the same state.
    | OpSignIn(session: int, account: AccountId, lifetime: nat)
    | OpEndSession(session: int)
    | OpSubmit(demand: int, account: AccountId, transfer: nat)
    | OpAdvance(elapsed: nat)
  {
    predicate Guarded() {
      || OpCreateLocal? || OpCreateIntegration? || OpChangeRole? || OpChangeEnabled? || OpRemove? || OpMerge?
      || OpSetOwnCredential? || OpResetPassword? || OpChangeOwnPassword? || OpSetOwnEmail?
    }

    /** The accounts whose generation a guarded change moves. */
    function Touched(): set<AccountId>
      requires Guarded()
    {
      if OpCreateLocal? || OpCreateIntegration? || OpSetOwnEmail? then {}
      else if OpMerge? then Elements(sources) + {target}
      else {account}
    }
  }

  /** What a guarded change makes of the tables. */
  ghost function EditOf(db: Db, op: Op): Edit
    requires op.Guarded()
  {
    match op
    case OpCreateLocal(id, username, password, role) => CreateLocal(db, id, username, password, role)
    case OpCreateIntegration(id) => CreateIntegration(db, id)
    case OpChangeRole(actor, a, role) => ChangeRole(db, actor, a, role)
    case OpChangeEnabled(actor, a, enabled) => ChangeEnabled(db, actor, a, enabled)
    case OpRemove(actor, a) => Remove(db, actor, a)
    case OpMerge(actor, sources, target) => Merge(db, actor, sources, target)
    case OpSetOwnCredential(a, username, password, clear, _) => SetOwnCredential(db, a, username, password, clear)
    case OpResetPassword(actor, a, password, username) => ResetPassword(db, actor, a, password, username)
    case OpChangeOwnPassword(a, proven, password) => ChangeOwnPassword(db, a, proven, password)
    case OpSetOwnEmail(a, address, expected) => SetOwnEmail(db, a, address, expected)
  }

  /** Disabling or removing an account withdraws demand, and replies with the transfers it was for. */
  predicate Retires(op: Op) {
    (op.OpChangeEnabled? && !op.enabled) || op.OpRemove?
  }

  ghost function GuardedStep(s: State, op: Op): Result
    requires op.Guarded()
  {
    var edit := EditOf(s.db, op);
    if op.OpChangeRole? then MutateRole(s, edit, op.account)
    else
      var r := Mutate(s, edit, op.Touched(), if op.OpSetOwnCredential? then op.next else s.settings);
      if Retires(op) && r.reply.Done?
      then r.(reply := Withdrawn(OutstandingTransfers(s.db, Owned(s.db.accounts, op.account))))
      else r
  }

  /** A plain transaction: it touches no account and no session. */
  function Plain(s: State, edit: Edit): Result {
    if edit.Rejected? then Result(s, Refused) else Result(s.(db := edit.db), Done)
  }

  function SignIn(s: State, k: int, a: AccountId, lifetime: nat): Result {
    if k in s.sessions || Admitted(s.db, a).None? then Result(s, Refused)
    else
      var account := s.db.accounts[a];
      Result(s.(sessions := s.sessions[k := Session(a, account.role, account.generation, s.clock + lifetime)]), Done)
  }

  function Submit(s: State, d: int, a: AccountId, transfer: nat): Result {
    if d in s.db.demands then Result(s, Refused)
    else Result(s.(db := s.db.(demands := s.db.demands[d := Demand(a, transfer, false)])), Done)
  }

  ghost function Step(s: State, op: Op): Result {
    if op.Guarded() then GuardedStep(s, op)
    else
      match op
      case OpResolveOidc(identity, id, role, claim) => ResolveOidc(s, identity, id, role, claim)
      case OpBindVerified(identity, a) => BindVerified(s, identity, a)
      case OpImportLegacy(username, verifier) => ImportLegacy(s, username, verifier)
      case OpCreateToken(a, t, secret, succeeds) => Plain(s, CreateToken(s.db, a, t, secret, succeeds))
      case OpRevokeToken(a, t) => Plain(s, RevokeToken(s.db, a, t))
      case OpSignIn(k, a, lifetime) => SignIn(s, k, a, lifetime)
      case OpEndSession(k) => Result(s.(sessions := s.sessions - {k}), Done)
      case OpSubmit(d, a, transfer) => Submit(s, d, a, transfer)
      case OpAdvance(elapsed) => Result(s.(clock := s.clock + elapsed), Done)
  }

  /** The state a sequence of operations leaves. */
  ghost function Run(s: State, ops: seq<Op>): State
    decreases |ops|
  {
    if ops == [] then s else Run(Step(s, ops[0]).state, ops[1..])
  }
}
