/** Changing the authentication settings, alone or with a verified proof, beside every account operation: which changes
    are admitted, and when they keep a usable Admin. */
module SettingsTransition {
  import opened Support
  import opened AccountModel
  import opened MergeForest
  import opened AccountLaws
  import opened AccountRuns

  /** A request for other settings. `dedicated`: through the authentication endpoint, not the settings document.
      `supplied`: it names a critical OIDC value anew; `reversioned`: the effective OIDC configuration changes otherwise
      than by its issuer; `admitting`: the proposed OIDC policy admits somebody; `session`: the session it comes in. The
      issuer of settings is blank where their OIDC configuration is incomplete. */
  datatype Change = Change(
    dedicated: bool, next: Settings, supplied: bool, reversioned: bool, admitting: bool, authenticated: bool,
    confirmed: bool, session: Option<int>)

  /** The account state, and the identity each OIDC session was opened through. */
  datatype World = World(state: State, through: map<int, Identity>)

  predicate Interactive(settings: Settings) {
    settings.password || settings.oidc
  }

  /** An active Admin holds a password. */
  predicate PasswordHeld(db: Db) {
    exists a | a in db.accounts :: db.accounts[a].role == Admin && db.accounts[a].Active() && HasPassword(db, a)
  }

  /** An active Admin is bound under `issuer`. */
  predicate AdminBound(db: Db, issuer: Atom) {
    issuer != Blank &&
    exists a | a in db.accounts :: db.accounts[a].role == Admin && db.accounts[a].Active() && BoundUnder(db, a, issuer)
  }

  predicate Reversioned(s: State, c: Change) {
    c.next.issuer != s.settings.issuer || c.reversioned
  }

  predicate Critical(s: State, c: Change) {
    c.supplied || Reversioned(s, c)
  }

  /** The proposed OIDC mechanism is locally usable and does not deny everyone. */
  predicate OidcReady(c: Change) {
    c.next.oidc && c.next.issuer != Blank && c.admitting
  }

  /** The request comes in a valid OIDC session of an Admin. */
  predicate ByOidc(w: World, c: Change) {
    && c.session.Some? && c.session.value in w.through && c.session.value in w.state.sessions
    && w.state.sessions[c.session.value].expires > w.state.clock
    && w.state.sessions[c.session.value].role == Admin
    && w.state.settings.oidc && w.state.settings.issuer != Blank
    && w.through[c.session.value].issuer == w.state.settings.issuer
  }

  /** The one transition guard of both endpoints. */
  predicate Passes(w: World, c: Change) {
    var now, next, held := w.state.settings, c.next, PasswordHeld(w.state.db);
    if !Interactive(next) && Interactive(now) then c.authenticated && c.confirmed
    else
      && (Interactive(next) ==> (next.password && held) || OidcReady(c))
      && !(!Interactive(now) && next.oidc && !next.password)
      && (now.password && !next.password && next.oidc ==> !Critical(w.state, c) && ByOidc(w, c))
      && (!now.password && now.oidc && next.oidc && Critical(w.state, c) ==> next.password && held)
  }

  /** What the authentication endpoint requires besides. */
  predicate Complete(db: Db, c: Change) {
    (c.next.password ==> PasswordHeld(db)) && (c.next.oidc ==> c.next.issuer != Blank)
  }

  predicate Admissible(w: World, c: Change) {
    Passes(w, c) && (c.dedicated ==> Complete(w.state.db, c))
  }

  /** A change ends the sessions of a mechanism it switches or reconfigures. */
  function Kept(w: World, c: Change): map<int, Session> {
    var now, next := w.state.settings, c.next;
    var endsOidc := if c.dedicated then Critical(w.state, c) || (now.oidc && !next.oidc)
                    else now.oidc != next.oidc || Reversioned(w.state, c);
    map k | k in w.state.sessions && !(if k in w.through then endsOidc else now.password != next.password) ::
      w.state.sessions[k]
  }

  function Changed(w: World, c: Change): World {
    if Admissible(w, c) then w.(state := w.state.(settings := c.next, sessions := Kept(w, c))) else w
  }

  /** A configuration whose sign-in was proven: the proven identity is linked to the Admin first, and then the
      configuration committed, with the password mechanism as staged. */
  function Proven(w: World, identity: Identity, a: AccountId, password: bool): World {
    var bound := BindVerified(w.state, identity, a);
    if bound.reply == SignsInAs(None) then w
    else
      w.(state := bound.state.(
           settings := Settings(password, true, identity.issuer),
           sessions := map k | k in w.state.sessions && k !in w.through :: w.state.sessions[k]))
  }

  /** A sign-in through an identity of the configured issuer, already resolved to its account. */
  function Enters(w: World, k: int, identity: Identity, lifetime: nat): World {
    var s := w.state;
    if identity !in s.db.bindings || !s.settings.oidc || identity.issuer != s.settings.issuer then w
    else
      var r := SignIn(s, k, s.db.bindings[identity], lifetime);
      if r.reply.Refused? then w else World(r.state, w.through[k := identity])
  }

  datatype Act =
    | Does(op: Op)
    | EntersThrough(session: int, identity: Identity, lifetime: nat)
    | Changes(change: Change)
    | Proves(identity: Identity, account: AccountId, password: bool)

  ghost function Next(w: World, act: Act): World {
    match act
    case Does(op) =>
      World(Step(w.state, op).state,
            if op.OpSignIn? && !Step(w.state, op).reply.Refused? then w.through - {op.session} else w.through)
    case EntersThrough(k, identity, lifetime) => Enters(w, k, identity, lifetime)
    case Changes(c) => Changed(w, c)
    case Proves(identity, a, password) => Proven(w, identity, a, password)
  }

  // ---- what a session was opened through ------------------------------------------------------------

  /** A live session opened through an identity is a session of the account that identity is bound to. */
  ghost predicate Linked(w: World) {
    forall k | k in w.through && k in w.state.sessions && w.state.sessions[k].expires > w.state.clock ::
      && w.through[k] in w.state.db.bindings
      && w.state.db.bindings[w.through[k]] == w.state.sessions[k].account
  }

  ghost predicate Good(w: World) {
    Inv(w.state) && Linked(w)
  }

  /** A binding moves only from an account that is not active any more. */
  lemma StepBinding(s: State, op: Op, i: Identity)
    requires Inv(s) && i in s.db.bindings
    ensures i in Step(s, op).state.db.bindings
    ensures Step(s, op).state.db.bindings[i] == s.db.bindings[i] || Admitted(Step(s, op).state.db, s.db.bindings[i]).None?
  {
    hide GuardedStep;
    if op.Guarded() {
      GuardedBinding(s, op, i);
    } else {
      UnguardedBinding(s, op, i);
    }
  }

  lemma GuardedBinding(s: State, op: Op, i: Identity)
    requires BindingsOwned(s.db) && op.Guarded() && i in s.db.bindings
    ensures var db := GuardedStep(s, op).state.db;
            i in db.bindings && (db.bindings[i] == s.db.bindings[i] || Admitted(db, s.db.bindings[i]).None?)
  {
    hide EditOf, Owned, UsableAdminExists, OutstandingTransfers;
    MovedBindings(s.db, op);
    GuardedRow(s, op, s.db.bindings[i]);
  }

  lemma UnguardedBinding(s: State, op: Op, i: Identity)
    requires BindingsOwned(s.db) && !op.Guarded() && i in s.db.bindings
    ensures var db := Step(s, op).state.db;
            i in db.bindings && (db.bindings[i] == s.db.bindings[i] || Admitted(db, s.db.bindings[i]).None?)
  {
    hide UsernameTaken, Owned, VerifierTaken, ResolveOidc, BindVerified;
    if op.OpResolveOidc? || op.OpBindVerified? {
      SignInBinding(s, op, i);
    }
  }

  lemma SignInBinding(s: State, op: Op, i: Identity)
    requires BindingsOwned(s.db) && (op.OpResolveOidc? || op.OpBindVerified?) && i in s.db.bindings
    ensures var db := Step(s, op).state.db;
            i in db.bindings && (db.bindings[i] == s.db.bindings[i] || Admitted(db, s.db.bindings[i]).None?)
  {
    hide CompleteEmail, ClaimedEmail;
    SignInRow(s, op, s.db.bindings[i]);
  }

  /** Where a live session of a step comes from: one signed in now, or one of the same account that was live before. */
  lemma SessionOrigin(s: State, op: Op, k: int)
    requires k in Step(s, op).state.sessions && Step(s, op).state.sessions[k].expires > Step(s, op).state.clock
    ensures (op.OpSignIn? && op.session == k && !Step(s, op).reply.Refused?)
            || (k in s.sessions && s.sessions[k].expires > s.clock
                && s.sessions[k].account == Step(s, op).state.sessions[k].account)
  {
    hide EditOf, Owned, UsableAdminExists, OutstandingTransfers, UsernameTaken, VerifierTaken;
  }

  lemma StepLinked(w: World, op: Op)
    requires Good(w)
    ensures Good(Next(w, Does(op)))
  {
    hide Step, DbInv, Forest;
    var y := Next(w, Does(op));
    StepInv(w.state, op);
    forall k | k in y.through && k in y.state.sessions && y.state.sessions[k].expires > y.state.clock
      ensures y.through[k] in y.state.db.bindings
      ensures y.state.db.bindings[y.through[k]] == y.state.sessions[k].account
    {
      SessionOrigin(w.state, op, k);
      StepBinding(w.state, op, y.through[k]);
      assert y.state.db.accounts[y.state.sessions[k].account].Active();
    }
  }

  lemma EnterGood(w: World, k: int, identity: Identity, lifetime: nat)
    requires Good(w)
    ensures Good(Enters(w, k, identity, lifetime))
  {
    hide DbInv, Forest;
    if identity in w.state.db.bindings {
      var op := OpSignIn(k, w.state.db.bindings[identity], lifetime);
      StepInv(w.state, op);
      assert Step(w.state, op) == SignIn(w.state, k, op.account, lifetime);
    }
  }

  lemma ChangeGood(w: World, c: Change)
    requires Good(w)
    ensures Good(Changed(w, c))
  {
    hide DbInv, Forest, Admissible;
  }

  lemma ProofGood(w: World, identity: Identity, a: AccountId, password: bool)
    requires Good(w)
    ensures Good(Proven(w, identity, a, password))
  {
    hide DbInv, Forest;
    var op := OpBindVerified(identity, a);
    StepInv(w.state, op);
    assert Step(w.state, op) == BindVerified(w.state, identity, a);
  }

  lemma NextGood(w: World, act: Act)
    requires Good(w)
    ensures Good(Next(w, act))
  {
    hide Good;
    match act {
      case Does(op) => StepLinked(w, op);
      case EntersThrough(k, identity, lifetime) => EnterGood(w, k, identity, lifetime);
      case Changes(c) => ChangeGood(w, c);
      case Proves(identity, a, password) => ProofGood(w, identity, a, password);
    }
  }

  // ---- which changes are admitted --------------------------------------------------------------------

  /** Some enabled, live Admin holds a password. */
  ghost predicate SomePassword(db: Db) {
    exists a | a in db.accounts ::
      && db.accounts[a].role == Admin && db.accounts[a].enabled && !db.accounts[a].deleted && db.accounts[a].mergedInto == None
      && a in db.credentials && db.credentials[a].verifier != None
  }

  /** The request comes in an unexpired session that an Admin opened through the OIDC configuration now in force. */
  ghost predicate InOidcSession(w: World, session: Option<int>) {
    exists k | k in w.through ::
      && session == Some(k) && k in w.state.sessions && w.state.sessions[k].expires > w.state.clock && w.state.sessions[k].role == Admin
      && w.state.settings.oidc && w.state.settings.issuer != Blank && w.through[k].issuer == w.state.settings.issuer
  }

  /** The OIDC configuration would not be the one in force. */
  ghost predicate Reconfigures(w: World, c: Change) {
    c.supplied || c.reversioned || c.next.issuer != w.state.settings.issuer
  }

  /** Each reason for which a change is turned away, and no other: switching everything off unproven or unconfirmed; no
      mechanism left that is locally usable; OIDC as the first and only mechanism; leaving passwords for an OIDC
      configuration that is changed with them or not proven by the very session; replacing the sole OIDC configuration
      without a usable password beside it; and, through the authentication endpoint, passwords that no Admin holds or an
      incomplete OIDC configuration. */
  lemma TurnedAwayExactly(w: World, c: Change)
    ensures var now, next, db := w.state.settings, c.next, w.state.db;
            !Admissible(w, c) <==>
              || (if !next.password && !next.oidc && (now.password || now.oidc) then !c.authenticated || !c.confirmed
                  else
                    || ((next.password || next.oidc)
                        && !(next.password && SomePassword(db)) && !(next.oidc && next.issuer != Blank && c.admitting))
                    || (!now.password && !now.oidc && !next.password && next.oidc)
                    || (now.password && !next.password && next.oidc && (Reconfigures(w, c) || !InOidcSession(w, c.session)))
                    || (!now.password && now.oidc && next.oidc && Reconfigures(w, c) && !(next.password && SomePassword(db))))
              || (c.dedicated && ((next.password && !SomePassword(db)) || (next.oidc && next.issuer == Blank)))
  {
    hide PasswordHeld, SomePassword, ByOidc, InOidcSession;
    HeldIs(w.state.db);
    ByOidcIs(w, c);
  }

  lemma HeldIs(db: Db)
    ensures PasswordHeld(db) <==> SomePassword(db)
  {
  }

  lemma ByOidcIs(w: World, c: Change)
    ensures ByOidc(w, c) <==> InOidcSession(w, c.session)
  {
    if ByOidc(w, c) {
      var k := c.session.value;
      assert k in w.through && c.session == Some(k);
    }
  }

  /** An admitted change puts its settings in force, touches no account, and ends exactly the sessions of a mechanism it
      switches, and the OIDC sessions where it reconfigures; naming a critical value anew ends those too, but only through
      the authentication endpoint. */
  lemma ChangedExactly(w: World, c: Change, k: int)
    requires Admissible(w, c) && k in w.state.sessions
    ensures var t, now := Changed(w, c), w.state.settings;
            && t.state.settings == c.next && t.state.db == w.state.db && t.state.clock == w.state.clock && t.through == w.through
            && (forall j | j in t.state.sessions :: j in w.state.sessions && t.state.sessions[j] == w.state.sessions[j])
            && (k in t.state.sessions <==>
                  if k !in w.through then now.password == c.next.password
                  else
                    && c.next.issuer == now.issuer && !c.reversioned && !(now.oidc && !c.next.oidc)
                    && if c.dedicated then !c.supplied else now.oidc == c.next.oidc)
  {
    hide Admissible;
  }

  /** Through an identity of the configured issuer its account signs in, if it is active and the key is new, and the session
      remembers the identity; a proven configuration is put in force with the proven identity's Admin bound, and ends every
      OIDC session. */
  lemma EntersExactly(w: World, k: int, identity: Identity, lifetime: nat)
    ensures var t, s := Enters(w, k, identity, lifetime), w.state;
            if identity in s.db.bindings && s.settings.oidc && identity.issuer == s.settings.issuer && k !in s.sessions
               && s.db.bindings[identity] in s.db.accounts && s.db.accounts[s.db.bindings[identity]].Active()
            then
              var a := s.db.bindings[identity];
              && t.through == w.through[k := identity] && t.state == s.(sessions := t.state.sessions)
              && t.state.sessions ==
                   s.sessions[k := Session(a, s.db.accounts[a].role, s.db.accounts[a].generation, s.clock + lifetime)]
            else t == w
  {
  }

  lemma ProvenExactly(w: World, identity: Identity, a: AccountId, password: bool)
    ensures var t, db := Proven(w, identity, a, password), w.state.db;
            var target := if identity in db.bindings then db.bindings[identity] else a;
            if identity.issuer != Blank && identity.subject != Blank && target in db.accounts
               && db.accounts[target].role == Admin && db.accounts[target].Active()
            then
              && t.state.settings == Settings(password, true, identity.issuer)
              && t.state.db == db.(bindings := db.bindings[identity := target]) && t.state.clock == w.state.clock
              && (forall k :: k in t.state.sessions <==> k in w.state.sessions && k !in w.through)
              && (forall k | k in t.state.sessions :: t.state.sessions[k] == w.state.sessions[k])
            else t == w
  {
  }

  // ---- the last usable Admin ------------------------------------------------------------------------

  lemma UsableMeans(db: Db, settings: Settings)
    ensures UsableAdminExists(db, settings) <==>
              || !Interactive(settings) || (settings.password && PasswordHeld(db))
              || (settings.oidc && AdminBound(db, settings.issuer))
  {
    if settings.password && PasswordHeld(db) {
      var a :| a in db.accounts && db.accounts[a].role == Admin && db.accounts[a].Active() && HasPassword(db, a);
      assert UsableAdmin(db, a, settings);
    }
    if settings.oidc && AdminBound(db, settings.issuer) {
      var a :| a in db.accounts && db.accounts[a].role == Admin && db.accounts[a].Active()
               && BoundUnder(db, a, settings.issuer);
      assert UsableAdmin(db, a, settings);
    }
    if UsableAdminExists(db, settings) && Interactive(settings) {
      var a :| a in db.accounts && UsableAdmin(db, a, settings);
    }
  }

  /** The one family of changes that the guard admits and that may leave no usable Admin: through the settings document,
      the password mechanism switched on or left on although no Admin holds a password, on the word of an OIDC
      configuration under whose issuer no Admin is bound. */
  predicate Strands(w: World, c: Change) {
    && !c.dedicated && c.next.password && c.next.oidc
    && !PasswordHeld(w.state.db) && !AdminBound(w.state.db, c.next.issuer)
  }

  /** A valid OIDC session of an Admin witnesses that an Admin is bound under the configured issuer. */
  lemma SessionWitness(w: World, c: Change)
    requires Good(w) && ByOidc(w, c)
    ensures AdminBound(w.state.db, w.state.settings.issuer)
  {
    hide DbInv, Forest;
    var k := c.session.value;
    var a, i := w.state.sessions[k].account, w.through[k];
    assert BoundUnder(w.state.db, a, i.issuer);
    assert w.state.db.accounts[a].Active() && w.state.db.accounts[a].role == Admin;
  }

  /** Exactly when an admitted change of settings keeps a usable Admin. */
  lemma ChangeUsable(w: World, c: Change)
    requires Good(w) && UsableAdminExists(w.state.db, w.state.settings) && Admissible(w, c)
    ensures UsableAdminExists(Changed(w, c).state.db, Changed(w, c).state.settings) <==> !Strands(w, c)
  {
    hide Good, PasswordHeld, AdminBound, ByOidc, UsableAdminExists;
    UsableMeans(w.state.db, w.state.settings);
    UsableMeans(w.state.db, c.next);
    if ByOidc(w, c) {
      SessionWitness(w, c);
    }
  }

  lemma ProofUsable(w: World, identity: Identity, a: AccountId, password: bool)
    requires UsableAdminExists(w.state.db, w.state.settings)
    ensures UsableAdminExists(Proven(w, identity, a, password).state.db, Proven(w, identity, a, password).state.settings)
  {
    var r := BindVerified(w.state, identity, a);
    if r.reply != SignsInAs(None) {
      var target := r.reply.account.value;
      assert r.state.db.bindings[identity] == target;
      assert BoundUnder(r.state.db, target, identity.issuer);
      assert UsableAdmin(r.state.db, target, Settings(password, true, identity.issuer));
    }
  }

  lemma EnterUsable(w: World, k: int, identity: Identity, lifetime: nat)
    ensures Enters(w, k, identity, lifetime).state.db == w.state.db
    ensures Enters(w, k, identity, lifetime).state.settings == w.state.settings
  {
  }

  /** After every act there is a usable Admin if there was one before, but for an admitted change that strands. */
  lemma NextUsable(w: World, act: Act)
    requires Good(w) && UsableAdminExists(w.state.db, w.state.settings)
    ensures UsableAdminExists(Next(w, act).state.db, Next(w, act).state.settings) <==>
              !(act.Changes? && Admissible(w, act.change) && Strands(w, act.change))
  {
    hide Good, Step, UsableAdminExists, Strands, Admissible, Proven, Enters;
    match act {
      case Does(op) => StepUsable(w.state, op);
      case EntersThrough(k, identity, lifetime) => EnterUsable(w, k, identity, lifetime);
      case Changes(c) =>
        if Admissible(w, c) {
          ChangeUsable(w, c);
        }
      case Proves(identity, a, password) => ProofUsable(w, identity, a, password);
    }
  }

  /** No settings document of the run strands anybody. */
  ghost predicate NeverStrands(w: World, acts: seq<Act>)
    decreases |acts|
  {
    acts != [] ==>
      && !(acts[0].Changes? && Admissible(w, acts[0].change) && Strands(w, acts[0].change))
      && NeverStrands(Next(w, acts[0]), acts[1..])
  }

  /** There is a usable Admin at every moment. */
  ghost predicate AlwaysUsable(w: World, acts: seq<Act>)
    decreases |acts|
  {
    && UsableAdminExists(w.state.db, w.state.settings)
    && (acts != [] ==> AlwaysUsable(Next(w, acts[0]), acts[1..]))
  }

  /** Over every mix of account operations, sign-ins, changes of settings and verified configurations, there is a usable
      Admin at every moment exactly if no change strands. */
  lemma {:induction false} ActsUsable(w: World, acts: seq<Act>)
    requires Good(w) && UsableAdminExists(w.state.db, w.state.settings)
    ensures AlwaysUsable(w, acts) <==> NeverStrands(w, acts)
    decreases |acts|
  {
    hide Good, Next, UsableAdminExists, Strands, Admissible;
    if acts != [] {
      NextGood(w, acts[0]);
      NextUsable(w, acts[0]);
      if UsableAdminExists(Next(w, acts[0]).state.db, Next(w, acts[0]).state.settings) {
        ActsUsable(Next(w, acts[0]), acts[1..]);
      }
    }
  }

  /** The authentication endpoint never strands: as long as settings change through it alone, and through verified
      configurations, a usable Admin stays. */
  lemma {:induction false} DedicatedUsable(w: World, acts: seq<Act>)
    requires Good(w) && UsableAdminExists(w.state.db, w.state.settings)
    requires forall act | act in acts && act.Changes? :: act.change.dedicated
    ensures AlwaysUsable(w, acts)
    decreases |acts|
  {
    hide Good, Next, UsableAdminExists, Admissible;
    if acts != [] {
      assert acts[0] in acts;
      NextGood(w, acts[0]);
      NextUsable(w, acts[0]);
      DedicatedUsable(Next(w, acts[0]), acts[1..]);
    }
  }

  /** A fresh installation is good, and nobody is signed in. */
  lemma FreshGood(settings: Settings)
    ensures Good(World(Installed(settings), map[]))
  {
    hide Inv, Installed;
    InstalledInv(settings);
  }

  /** A fresh open installation that one settings document leaves without any Admin who could sign in: both mechanisms
      switched on at once, no password stored, nobody bound. */
  lemma DocumentStrands(issuer: Atom)
    requires issuer != Blank
    ensures var w := World(Installed(Settings(false, false, Blank)), map[]);
            var c := Change(false, Settings(true, true, issuer), false, false, true, false, false, None);
            && Good(w) && UsableAdminExists(w.state.db, w.state.settings)
            && Changed(w, c).state.settings == c.next
            && !UsableAdminExists(Changed(w, c).state.db, c.next)
  {
    FreshGood(Settings(false, false, Blank));
  }
}
