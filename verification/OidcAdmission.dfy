/** Admitting an OpenID Connect identity: when UserInfo is asked for, how its claims join the ID token's, and who is
    admitted on the result. */
module OidcAdmission {
  import opened Support

  datatype Claim = Subject | Issuer | Email | EmailVerified | Name | PreferredUsername | Nickname | GivenName | FamilyName
                 | Named(name: int)

  /** A claim's value; a text is 0 when it is blank. */
  datatype Value = Null | Flag(on: bool) | Text(text: int) | Names(items: seq<int>) | Other(printed: int)

  type Claims = map<Claim, Value>

  datatype Config = Config(
    issuer: int, allowAll: bool, allowedSubjects: set<int>, allowedEmails: set<int>, allowedGroups: set<int>, groupClaim: Claim)

  /** A validated ID token names its issuer and subject. */
  predicate Validated(id: Claims) {
    Issuer in id && Subject in id
  }

  /** No blank address is ever configured as allowed. */
  predicate Configured(config: Config) {
    0 !in config.allowedEmails
  }

  /** A claim as trimmed text; a missing or empty one is blank. */
  function Written(c: Claims, key: Claim): int {
    if key !in c then 0
    else
      match c[key]
      case Null => 0
      case Flag(on) => if on then 1 else 0
      case Text(text) => text
      case Names(items) => if items == [] then 0 else 2
      case Other(printed) => printed
  }

  predicate Verified(c: Claims) {
    EmailVerified in c && c[EmailVerified] == Flag(true)
  }

  /** The ID token alone cannot decide: UserInfo must be asked. */
  predicate NeedsUserinfo(config: Config, id: Claims) {
    && !config.allowAll
    && ((config.allowedEmails != {} && (Written(id, Email) == 0 || !Verified(id)))
        || (config.allowedGroups != {} && config.groupClaim !in id))
  }

  /** `key` is taken from UserInfo where the token lacks it. */
  function Adopt(c: Claims, userinfo: Claims, key: Claim): Claims {
    if key !in c && key in userinfo then c[key := userinfo[key]] else c
  }

  /** UserInfo replaces the email pair as a whole. */
  predicate Replaces(config: Config, id: Claims, userinfo: Claims) {
    && config.allowedEmails != {} && !(Written(id, Email) != 0 && Verified(id))
    && Written(userinfo, Email) != 0 && Verified(userinfo)
  }

  function JoinEmail(config: Config, id: Claims, userinfo: Claims): Claims {
    if config.allowedEmails == {} then Adopt(Adopt(id, userinfo, Email), userinfo, EmailVerified)
    else if Replaces(config, id, userinfo) then id[Email := userinfo[Email]][EmailVerified := Flag(true)]
    else id
  }

  function Profile(config: Config): set<Claim> {
    {Name, PreferredUsername, Nickname, GivenName, FamilyName, config.groupClaim}
  }

  /** Every claim of `keys` that only UserInfo has, added. */
  function Completed(c: Claims, userinfo: Claims, keys: set<Claim>): Claims {
    c + map key | key in keys && key !in c && key in userinfo :: userinfo[key]
  }

  function Merged(config: Config, id: Claims, userinfo: Claims): Claims {
    Completed(JoinEmail(config, id, userinfo), userinfo, Profile(config))
  }

  lemma AdoptMore(c: Claims, userinfo: Claims, keys: set<Claim>, key: Claim)
    ensures Adopt(Completed(c, userinfo, keys), userinfo, key) == Completed(c, userinfo, keys + {key})
  {
  }

  /** The token's claims, completed from UserInfo one claim at a time. */
  method MergeUserinfo(config: Config, id: Claims, userinfo: Claims) returns (merged: Claims)
    ensures merged == Merged(config, id, userinfo)
  {
    hide Completed;
    hide Adopt;
    var start := JoinEmail(config, id, userinfo);
    merged := start;
    var left := [Name, PreferredUsername, Nickname, GivenName, FamilyName, config.groupClaim];
    ghost var done: set<Claim> := {};
    assert Completed(start, userinfo, {}) == start by { CompletedNone(start, userinfo); }
    assert Elements(left) == Profile(config);
    while left != []
      invariant merged == Completed(start, userinfo, done) && done + Elements(left) == Profile(config)
      decreases |left|
    {
      AdoptMore(start, userinfo, done, left[0]);
      assert Elements(left) == {left[0]} + Elements(left[1..]);
      merged := Adopt(merged, userinfo, left[0]);
      done := done + {left[0]};
      left := left[1..];
    }
    assert done == Profile(config);
  }

  lemma CompletedNone(c: Claims, userinfo: Claims)
    ensures Completed(c, userinfo, {}) == c
  {
  }

  /** The identity is admitted on these claims; `fold` is the case fold of an address. */
  predicate Admits(config: Config, c: Claims, fold: int -> int) {
    && Written(c, Subject) != 0 && Written(c, Issuer) == config.issuer
    && (config.allowAll
        || (&& (config.allowedSubjects != {} || config.allowedEmails != {} || config.allowedGroups != {})
            && (config.allowedSubjects != {} ==> Written(c, Subject) in config.allowedSubjects)
            && (config.allowedEmails != {} ==> Verified(c) && fold(Written(c, Email)) in config.allowedEmails)
            && (config.allowedGroups != {} ==> config.groupClaim in c && InGroup(c[config.groupClaim], config.allowedGroups))))
  }

  predicate InGroup(v: Value, allowed: set<int>) {
    match v
    case Text(text) => text in allowed
    case Names(items) => exists g | g in items :: g in allowed
    case _ => false
  }

  function Stated(c: Claims, key: Claim): Option<Value> {
    if key in c then Some(c[key]) else None
  }

  // ---- the same decisions, claim by claim -----------------------------------------------------------

  /** The claim is stated, and its text is not blank. */
  lemma WrittenMeans(c: Claims, key: Claim)
    ensures Written(c, key) == 0 <==> key !in c || c[key] in {Null, Flag(false), Text(0), Names([]), Other(0)}
    ensures key in c && c[key].Text? ==> Written(c, key) == c[key].text
  {
  }

  /** Some group the claims name, as one text or as a list, is allowed. */
  ghost predicate NamesGroup(c: Claims, key: Claim, allowed: set<int>) {
    key in c && exists g | g in allowed :: c[key] == Text(g) || (c[key].Names? && g in c[key].items)
  }

  /** Who is turned away: without a subject or from another issuer; and where not everybody is allowed, if nothing is
      configured that could allow anybody, or any one configured restriction is not met. */
  lemma TurnedAwayExactly(config: Config, c: Claims, fold: int -> int)
    ensures !Admits(config, c, fold) <==>
              || Written(c, Subject) == 0 || Written(c, Issuer) != config.issuer
              || (!config.allowAll &&
                    (|| (config.allowedSubjects == {} && config.allowedEmails == {} && config.allowedGroups == {})
                     || (config.allowedSubjects != {} && Written(c, Subject) !in config.allowedSubjects)
                     || (config.allowedEmails != {} &&
                           !(EmailVerified in c && c[EmailVerified] == Flag(true)
                             && fold(Written(c, Email)) in config.allowedEmails))
                     || (config.allowedGroups != {} && !NamesGroup(c, config.groupClaim, config.allowedGroups))))
  {
  }

  /** Every restriction only narrows: who is admitted under several is admitted under each of them alone. */
  lemma RestrictionsNarrow(config: Config, c: Claims, fold: int -> int)
    requires Admits(config, c, fold) && !config.allowAll
    ensures config.allowedSubjects != {} ==> Admits(config.(allowedEmails := {}, allowedGroups := {}), c, fold)
    ensures config.allowedEmails != {} ==> Admits(config.(allowedSubjects := {}, allowedGroups := {}), c, fold)
    ensures config.allowedGroups != {} ==> Admits(config.(allowedSubjects := {}, allowedEmails := {}), c, fold)
  {
  }

  /** The email pair after the merge, where the group claim is none of it: under a restriction UserInfo's whole pair where
      the token states no verified address and UserInfo does, else the token's; without one, each claim the token's where
      it states it and UserInfo's where it does not. */
  lemma EmailJoined(config: Config, id: Claims, userinfo: Claims)
    requires config.groupClaim !in {Email, EmailVerified}
    ensures var merged := Merged(config, id, userinfo);
            var stands := Written(id, Email) != 0 && EmailVerified in id && id[EmailVerified] == Flag(true);
            var offers := Written(userinfo, Email) != 0 && EmailVerified in userinfo && userinfo[EmailVerified] == Flag(true);
            if config.allowedEmails != {} && !stands && offers
            then Email in merged && EmailVerified in merged
                 && merged[Email] == userinfo[Email] && merged[EmailVerified] == Flag(true)
            else forall key | key in {Email, EmailVerified} ::
                   Stated(merged, key) == if key in id || config.allowedEmails != {} then Stated(id, key) else Stated(userinfo, key)
  {
  }

  /** Beside the email pair, a merged claim is the token's where it states it, and UserInfo's for a profile claim or the
      group claim it does not. */
  lemma ClaimsJoined(config: Config, id: Claims, userinfo: Claims, key: Claim)
    requires key !in {Email, EmailVerified}
    ensures Stated(Merged(config, id, userinfo), key) ==
              if key in id then Stated(id, key)
              else if key in {Name, PreferredUsername, Nickname, GivenName, FamilyName, config.groupClaim}
              then Stated(userinfo, key) else None
  {
  }

  /** UserInfo is asked exactly when the token alone leaves a configured restriction open: no verified address where
      addresses are restricted, or no group claim where groups are. */
  lemma AskedExactly(config: Config, id: Claims)
    ensures NeedsUserinfo(config, id) <==>
              && !config.allowAll
              && ((config.allowedEmails != {} &&
                     (Email !in id || Written(id, Email) == 0 || EmailVerified !in id || id[EmailVerified] != Flag(true)))
                  || (config.allowedGroups != {} && config.groupClaim !in id))
  {
  }

  // ---- asking only when needed --------------------------------------------------------------------

  /** Merging never touches a claim the token decides: issuer, subject, and whatever else it states, but for an email
      pair that is replaced whole. */
  lemma TokenClaimsStand(config: Config, id: Claims, userinfo: Claims, key: Claim)
    requires key in id
    ensures key in Merged(config, id, userinfo)
    ensures Merged(config, id, userinfo)[key] == id[key]
         || (key in {Email, EmailVerified} && Replaces(config, id, userinfo))
  {
  }

  /** Where UserInfo is not needed, nothing it could say changes the decision. */
  lemma UnneededIsIrrelevant(config: Config, id: Claims, userinfo: Claims, fold: int -> int)
    requires Validated(id) && !NeedsUserinfo(config, id)
    ensures Admits(config, Merged(config, id, userinfo), fold) <==> Admits(config, id, fold)
  {
    TokenClaimsStand(config, id, userinfo, Subject);
    TokenClaimsStand(config, id, userinfo, Issuer);
    if config.allowedEmails != {} && !config.allowAll {
      TokenClaimsStand(config, id, userinfo, Email);
      TokenClaimsStand(config, id, userinfo, EmailVerified);
    }
    if config.groupClaim in id {
      TokenClaimsStand(config, id, userinfo, config.groupClaim);
    }
  }

  /** Who is admitted on the token alone is never sent to UserInfo. */
  lemma AdmittedNeedsNothing(config: Config, id: Claims, fold: int -> int)
    requires Configured(config) && fold(0) == 0 && Admits(config, id, fold)
    ensures !NeedsUserinfo(config, id)
  {
  }

  // ---- the email pair -----------------------------------------------------------------------------

  predicate SamePair(c: Claims, d: Claims) {
    Stated(c, Email) == Stated(d, Email) && Stated(c, EmailVerified) == Stated(d, EmailVerified)
  }

  /** Without a replacement, this one claim is taken from UserInfo. */
  predicate Adopts(config: Config, id: Claims, userinfo: Claims, key: Claim) {
    key !in id && key in userinfo && (config.allowedEmails == {} || config.groupClaim == key)
  }

  /** The address and its verification come from one document, except exactly where one of them is adopted from
      UserInfo without the other and the two documents disagree on that other. */
  lemma PairIsWhole(config: Config, id: Claims, userinfo: Claims)
    ensures var merged := Merged(config, id, userinfo);
            !SamePair(merged, id) && !SamePair(merged, userinfo) <==>
              && !Replaces(config, id, userinfo)
              && ((Adopts(config, id, userinfo, Email) && !Adopts(config, id, userinfo, EmailVerified)
                     && Stated(id, EmailVerified) != Stated(userinfo, EmailVerified))
                  || (Adopts(config, id, userinfo, EmailVerified) && !Adopts(config, id, userinfo, Email)
                     && Stated(id, Email) != Stated(userinfo, Email)))
  {
    var merged := Merged(config, id, userinfo);
    if !Replaces(config, id, userinfo) {
      assert Stated(merged, Email) == if Adopts(config, id, userinfo, Email) then Stated(userinfo, Email) else Stated(id, Email);
      assert Stated(merged, EmailVerified) ==
        if Adopts(config, id, userinfo, EmailVerified) then Stated(userinfo, EmailVerified) else Stated(id, EmailVerified);
    }
  }

  /** Under an email restriction an admitted address was verified by the very document that stated it. */
  lemma AdmittedEmailVerified(config: Config, id: Claims, userinfo: Claims, fold: int -> int)
    requires !config.allowAll && config.allowedEmails != {} && config.groupClaim !in {Email, EmailVerified}
    requires Admits(config, Merged(config, id, userinfo), fold)
    ensures (Verified(id) && fold(Written(id, Email)) in config.allowedEmails)
         || (Verified(userinfo) && fold(Written(userinfo, Email)) in config.allowedEmails)
  {
    PairIsWhole(config, id, userinfo);
  }

  /** Without an email restriction the pair may be torn: the token states one address, UserInfo verifies another, and
      the claims together say that the first is verified. */
  lemma UnrestrictedPairTears()
    ensures var config := Config(1, false, {}, {}, {5}, Named(0));
            var id := map[Issuer := Text(1), Subject := Text(2), Email := Text(10)];
            var userinfo := map[Subject := Text(2), Email := Text(11), EmailVerified := Flag(true), Named(0) := Text(5)];
            var merged := Merged(config, id, userinfo);
            && NeedsUserinfo(config, id) && Stated(merged, Email) == Some(Text(10)) && Verified(merged)
            && !SamePair(merged, id) && !SamePair(merged, userinfo)
  {
  }
}
