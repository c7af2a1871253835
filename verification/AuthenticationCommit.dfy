/** The account credential and the authentication settings change as one: the settings file is written inside the
    still-open credential transaction, and put back if that transaction does not commit. */
module AuthenticationCommit {
  import opened Support
  import opened Text
  import opened AccountModel

  /** The credential part of an update of the authentication settings. */
  datatype Update = Update(username: Option<string>, password: Password, clear: bool, next: Settings)

  /** What stops the transaction before it writes anything, if anything does. */
  datatype Before = Proceeds | StopsByError | StopsByCancellation
  /** The settings write: done; failed; or done although it reports a failure. */
  datatype Write = Wrote | NotWrote | WroteRaising
  /** The commit: done; not done; or done although it raises. What it raises is an error or a cancellation. */
  datatype Commit = Commits | Aborts(cancelled: bool) | CommitsRaising(cancelled: bool)
  /** Everything outside the update's control; `restores` is whether the compensating write succeeds. */
  datatype World = World(before: Before, write: Write, commit: Commit, restores: bool)

  datatype Response = Ok200 | Conflict409 | Error500 | Cancelled

  /** The username an update asks for, if it asks for another one. */
  function RequestedUsername(update: Update, own: string): Option<string> {
    if update.username.None? || Trim(update.username.value) == own then None else Some(Trim(update.username.value))
  }

  predicate CredentialChange(update: Update, own: string) {
    update.clear || !update.password.NoPassword? || RequestedUsername(update, own).Some?
  }

  /** The credential change as the account machine makes it, under the settings about to be written. */
  function Changed(s: State, a: AccountId, update: Update, own: string): Result {
    Mutate(s, SetOwnCredential(s.db, a, RequestedUsername(update, own), update.password, update.clear), {a}, update.next)
  }

  /** An update asks for a change of credential exactly if it clears the password, supplies one, or names another username. */
  lemma AsksExactly(update: Update, own: string)
    ensures CredentialChange(update, own) <==>
              update.clear || update.password != NoPassword || (update.username != None && Trim(update.username.value) != own)
    ensures RequestedUsername(update, own) ==
              if update.username != None && Trim(update.username.value) != own then Some(Trim(update.username.value)) else None
  {
    hide Trim;
  }

  /** It is made as the account's own change of credential, under the settings about to be written. */
  lemma ChangedIsStep(s: State, a: AccountId, update: Update, own: string)
    ensures Changed(s, a, update, own) == Step(s, OpSetOwnCredential(
                a, if update.username != None && Trim(update.username.value) != own then Some(Trim(update.username.value)) else None,
                update.password, update.clear, update.next))
  {
    hide Trim, Mutate, SetOwnCredential;
  }

  /** What is durable after an attempt that got as far as writing the settings. */
  lemma DurableExactly(w: World)
    ensures CredentialNew(w) <==> w.write == Wrote && w.commit in {Commits, CommitsRaising(true), CommitsRaising(false)}
    ensures SettingsNew(w) <==>
              || (w.write == Wrote && (w.commit in {Commits, CommitsRaising(true), Aborts(true)} || !w.restores))
              || (w.write == WroteRaising && !w.restores)
  {
  }

  /** The transaction gets as far as writing the settings. */
  predicate Attempts(s: State, a: AccountId, update: Update, own: string, w: World) {
    w.before == Proceeds && !Changed(s, a, update, own).reply.Refused?
  }

  /** The credential of the attempt is durable. */
  predicate CredentialNew(w: World) {
    w.write == Wrote && !w.commit.Aborts?
  }

  /** The settings of the attempt are on disk. */
  predicate SettingsNew(w: World) {
    match w.write
    case NotWrote => false
    case WroteRaising => !w.restores
    case Wrote => w.commit.Commits? || w.commit.cancelled || !w.restores
  }

  /** One of the two is changed and the other not: exactly when the settings were written and the transaction was
      cancelled away, when putting the settings back failed, or when they were put back although it had committed. */
  lemma SplitsExactly(w: World)
    ensures SettingsNew(w) != CredentialNew(w) <==>
      || (w.write == WroteRaising && !w.restores)
      || (w.write == Wrote && w.commit.Aborts? && (w.commit.cancelled || !w.restores))
      || (w.write == Wrote && w.commit.CommitsRaising? && !w.commit.cancelled && w.restores)
  {
  }

  lemma ChangedUnder(s: State, a: AccountId, update: Update, own: string)
    requires !Changed(s, a, update, own).reply.Refused?
    ensures Changed(s, a, update, own).state.settings == update.next && Changed(s, a, update, own).state.clock == s.clock
  {
    hide SetOwnCredential;
    hide UsableAdminExists;
  }

  class Stores {
    var db: Db
    var sessions: map<int, Session>
    var clock: int
    /** The settings on disk, and the ones in force. */
    var file: Settings
    var live: Settings

    ghost function Snapshot(): State
      reads this
    {
      State(db, sessions, clock, live)
    }

    /** Puts the previous settings back after a failed attempt. */
    method Compensate(previous: Settings, w: World)
      modifies this`file
      ensures file == if w.restores then previous else old(file)
    {
      if w.restores {
        file := previous;
      }
    }

    /** An update that changes the account's own credential. */
    method UpdateWithCredential(a: AccountId, own: string, update: Update, w: World) returns (r: Response)
      requires file == live
      modifies this
      ensures var s := old(Snapshot());
              var after := Changed(s, a, update, own).state;
              // How it ends.
              && (r.Conflict409? <==> w.before == Proceeds && !Attempts(s, a, update, own, w))
              && (r.Ok200? <==> Attempts(s, a, update, own, w) && w.write == Wrote && w.commit == Commits)
              && (r.Cancelled? <==>
                    || w.before == StopsByCancellation
                    || (Attempts(s, a, update, own, w) && w.write == Wrote && w.commit != Commits && w.commit.cancelled))
              // Success changes both, and everything that follows from the credential.
              && (r.Ok200? ==> Snapshot() == after && file == update.next)
              // A refusal changes nothing.
              && (r.Conflict409? ==> Snapshot() == s && file == old(file))
              // Otherwise nothing is in force that was not; what is durable depends on the world alone.
              && clock == s.clock && (!r.Ok200? ==> live == old(live) && sessions == s.sessions)
              && db == (if Attempts(s, a, update, own, w) && CredentialNew(w) then after.db else s.db)
              && file == (if Attempts(s, a, update, own, w) && SettingsNew(w) then update.next else old(file))
    {
      hide Mutate;
      hide SetOwnCredential;
      hide RequestedUsername;
      var saved, previous := db, live;
      if w.before != Proceeds {
        return if w.before == StopsByError then Error500 else Cancelled;
      }
      var changed := Changed(State(db, sessions, clock, live), a, update, own);
      if changed.reply.Refused? {
        return Conflict409;
      }
      if w.write == NotWrote {
        Compensate(previous, w);
        return Error500;
      }
      file := update.next;
      if w.write == WroteRaising {
        Compensate(previous, w);
        return Error500;
      }
      db := changed.state.db;
      match w.commit {
        case Commits =>
          ChangedUnder(old(Snapshot()), a, update, own);
          sessions := changed.state.sessions;
          live := update.next;
          return Ok200;
        case Aborts(cancelled) =>
          db := saved;
          if cancelled {
            return Cancelled;
          }
          Compensate(previous, w);
          return Error500;
        case CommitsRaising(cancelled) =>
          if cancelled {
            return Cancelled;
          }
          Compensate(previous, w);
          return Error500;
      }
    }

    /** An update of the settings alone, or of the caller's credential with them. */
    method UpdateAuthentication(account: Option<AccountId>, own: string, update: Update, w: World) returns (r: Response)
      requires file == live
      modifies this
      ensures CredentialChange(update, own) && account.None? ==> r.Conflict409?
      ensures r.Conflict409? ==> Snapshot() == old(Snapshot()) && file == old(file)
      ensures r.Ok200? ==> file == live == update.next
      ensures r.Ok200? && CredentialChange(update, own) ==>
                account.Some? && Snapshot() == Changed(old(Snapshot()), account.value, update, own).state
      ensures !CredentialChange(update, own) ==>
                && db == old(db) && sessions == old(sessions)
                && (r.Ok200? <==> w.write == Wrote) && (r.Error500? <==> w.write != Wrote)
                && live == (if r.Ok200? then update.next else old(live))
                && file == if w.write == Wrote || (w.write == WroteRaising && !w.restores) then update.next else old(file)
      ensures CredentialChange(update, own) && account.Some? ==>
                var s, after := old(Snapshot()), Changed(old(Snapshot()), account.value, update, own);
                var attempted := w.before == Proceeds && !after.reply.Refused?;
                && (r.Conflict409? <==> w.before == Proceeds && after.reply.Refused?)
                && (r.Ok200? <==> attempted && w.write == Wrote && w.commit == Commits)
                && (r.Cancelled? <==>
                      w.before == StopsByCancellation || (attempted && w.write == Wrote && !w.commit.Commits? && w.commit.cancelled))
                && db == (if attempted && CredentialNew(w) then after.state.db else s.db)
                && file == (if attempted && SettingsNew(w) then update.next else old(file))
                && (!r.Ok200? ==> live == old(live) && sessions == s.sessions)
      ensures r.Error500? && w.restores && !w.commit.CommitsRaising? ==> db == old(db) && file == old(file) && live == old(live)
    {
      hide Changed;
      hide CredentialChange;
      if CredentialChange(update, own) {
        if account.None? {
          return Conflict409;
        }
        r := UpdateWithCredential(account.value, own, update, w);
        if r.Ok200? {
          ChangedUnder(old(Snapshot()), account.value, update, own);
        }
        return;
      }
      var previous := live;
      if w.write != NotWrote {
        file := update.next;
      }
      if w.write != Wrote {
        Compensate(previous, w);
        return Error500;
      }
      live := update.next;
      return Ok200;
    }
  }

  /** One cancellation that takes the transaction away after the settings are written splits the pair, although the
      compensating write would have succeeded: a cancellation is not an error, and nothing puts the settings back. */
  lemma CancelledCommitSplits()
    ensures var w := World(Proceeds, Wrote, Aborts(true), true); SettingsNew(w) && !CredentialNew(w)
    ensures var w := World(Proceeds, Wrote, Aborts(false), true); !SettingsNew(w) && !CredentialNew(w)
  {
  }

  /** A commit that fails after it took effect splits the pair the other way, just because the compensating write
      succeeds: the previous settings stand beside the new credential, under an error that says nothing was changed. */
  lemma FailedCommitSplits()
    ensures var w := World(Proceeds, Wrote, CommitsRaising(false), true); CredentialNew(w) && !SettingsNew(w)
    ensures var w := World(Proceeds, Wrote, CommitsRaising(false), false); CredentialNew(w) && SettingsNew(w)
  {
  }
}
