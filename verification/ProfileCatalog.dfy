/** Replacing the delivery profile catalog: one database commit decides it, and at every point where the write may be
    interrupted the catalog file is new only once every job it takes a profile away from is durably retired. */
module ProfileCatalog {
  import opened Support

  type JobId = nat

  /** `rest` is what governs only what is admitted next: categories, kinds, retention. */
  datatype Profile = Profile(id: int, localRoot: int, importRoot: int, clients: set<int>, rest: int)
  datatype Catalog = Catalog(revision: nat, profiles: seq<Profile>)
  /** An external job, by the profile and client it belongs to, until it is settled or retired with its profile. */
  datatype Job = Job(profile: int, client: int, settled: bool, retired: bool)
  datatype Update = Update(profiles: seq<Profile>, expected: nat, authorized: set<int>)

  datatype Change = Deleted | RootsChanged | ClientsRemoved
  /** What a write takes away: everything, or some clients' grants. */
  datatype Narrowing = Narrowing(change: Change, clients: Option<set<int>>)

  /** A profile that jobs still depend on, what the write would do to it, and how many of them it would take it from. */
  datatype Use = Use(id: int, change: Change, affected: nat)

  /** How the database commit ends: done; not done; or done, with the interruption arriving meanwhile. */
  datatype CommitFate = Committed | NotCommitted | CommittedInterrupted
  /** How the file write ends: done; failed on the old file; or done, and interrupted before it returns. */
  datatype SaveFate = Saved | NotSaved | SavedInterrupted

  datatype Outcome =
    | Replaced(retired: set<JobId>)
    | StaleRevision(revision: nat) | InvalidProfile | InUse(uses: seq<Use>, affected: nat)
    | Interrupted

  /** What is durable, and what is applied, at one point of a write. */
  datatype Moment = Moment(file: Catalog, live: Catalog, jobs: map<JobId, Job>)

  function Narrows(before: Profile, after: Option<Profile>): Option<Narrowing> {
    if after.None? then Some(Narrowing(Deleted, None))
    else if after.value.localRoot != before.localRoot || after.value.importRoot != before.importRoot
    then Some(Narrowing(RootsChanged, None))
    else if before.clients - after.value.clients != {}
    then Some(Narrowing(ClientsRemoved, Some(before.clients - after.value.clients)))
    else None
  }

  /** The last profile of that id, as a dictionary built from the list keeps it. */
  function Find(profiles: seq<Profile>, id: int): Option<Profile> {
    if profiles == [] then None
    else if profiles[|profiles| - 1].id == id then Some(profiles[|profiles| - 1])
    else Find(profiles[..|profiles| - 1], id)
  }

  predicate Depends(job: Job, profile: int, clients: Option<set<int>>) {
    job.profile == profile && !job.settled && !job.retired && (clients.Some? ==> job.client in clients.value)
  }

  function DependentsOf(jobs: map<JobId, Job>, profile: int, clients: Option<set<int>>): set<JobId> {
    set j | j in jobs && Depends(jobs[j], profile, clients)
  }

  /** The jobs a change of `before` takes it away from. */
  function Affected(jobs: map<JobId, Job>, before: Profile, after: seq<Profile>): set<JobId> {
    var n := Narrows(before, Find(after, before.id));
    if n.None? then {} else DependentsOf(jobs, before.id, n.value.clients)
  }

  function Retired(jobs: map<JobId, Job>, which: set<JobId>): map<JobId, Job> {
    map j | j in jobs :: if j in which then jobs[j].(retired := true) else jobs[j]
  }

  /** Everything a write takes away from some job, split by what the operator authorized. */
  ghost function Retiring(jobs: map<JobId, Job>, stored: seq<Profile>, after: seq<Profile>, authorized: set<int>): set<JobId> {
    set before, j | before in stored && before.id in authorized && j in Affected(jobs, before, after) :: j
  }

  ghost predicate Refuses(jobs: map<JobId, Job>, stored: seq<Profile>, after: seq<Profile>, authorized: set<int>) {
    exists before | before in stored :: before.id !in authorized && Affected(jobs, before, after) != {}
  }

  /** The stored profiles the write may not narrow, in their order. */
  function Uses(jobs: map<JobId, Job>, stored: seq<Profile>, after: seq<Profile>, authorized: set<int>): seq<Use> {
    if stored == [] then []
    else
      var before := stored[|stored| - 1];
      var narrowing, affected := Narrows(before, Find(after, before.id)), |Affected(jobs, before, after)|;
      Uses(jobs, stored[..|stored| - 1], after, authorized)
      + (if narrowing.Some? && affected > 0 && before.id !in authorized
         then [Use(before.id, narrowing.value.change, affected)] else [])
  }

  function Total(uses: seq<Use>): nat {
    if uses == [] then 0 else Total(uses[..|uses| - 1]) + uses[|uses| - 1].affected
  }

  /** The profiles a write creates or changes all pass the containment check. */
  predicate Contained(stored: seq<Profile>, profiles: seq<Profile>, confined: int -> bool) {
    forall p | p in profiles :: Find(stored, p.id) == Some(p) || confined(p.localRoot)
  }

  // ---- what a job keeps, in its own terms -----------------------------------------------------------

  /** The job still wants its profile. */
  predicate Wants(job: Job, before: Profile) {
    job.profile == before.id && !job.settled && !job.retired
  }

  /** The new profiles leave the job what it had of `before`: the profile of that id that counts has the same two roots,
      and the job's client if it had it. */
  ghost predicate Keeps(job: Job, before: Profile, after: seq<Profile>) {
    exists i | 0 <= i < |after| :: Succeeds(after, i, before) && (job.client in before.clients ==> job.client in after[i].clients)
  }

  /** The profile at `i` is the last of its id, and is `before` as far as roots go. */
  ghost predicate Succeeds(after: seq<Profile>, i: nat, before: Profile)
    requires i < |after|
  {
    && after[i].id == before.id && after[i].localRoot == before.localRoot && after[i].importRoot == before.importRoot
    && forall k | i < k < |after| :: after[k].id != before.id
  }

  /** The job loses something of a stored profile that the operator named, or did not name. */
  ghost predicate Loses(job: Job, stored: seq<Profile>, after: seq<Profile>, authorized: set<int>, named: bool) {
    exists before | before in stored ::
      (before.id in authorized <==> named) && Wants(job, before) && !Keeps(job, before, after)
  }

  /** No job that wants a stored profile loses any of it. */
  ghost predicate NothingLost(jobs: map<JobId, Job>, stored: seq<Profile>, after: seq<Profile>) {
    forall before, j | before in stored && j in jobs :: Wants(jobs[j], before) ==> Keeps(jobs[j], before, after)
  }

  /** What an interruption at this moment would leave: a new file only over jobs it strands none of, and jobs as they
      were or retired as authorized. */
  ghost predicate Safe(m: Moment, before: Moment, update: Update) {
    && (m.file == before.file || NothingLost(m.jobs, before.file.profiles, m.file.profiles))
    && (m.jobs == before.jobs ||
          m.jobs == Retired(before.jobs, Retiring(before.jobs, before.file.profiles, update.profiles, update.authorized)))
  }

  /** What `Find` finds is the last profile of that id. */
  /** One step: the file, the catalog in force or the jobs change, and no two of them at once. */
  ghost predicate NextMoment(m: Moment, n: Moment) {
    n == m.(file := n.file) || n == m.(live := n.live) || n == m.(jobs := n.jobs)
  }

  /** At no moment is the file new over a job that it leaves without its profile. */
  ghost predicate NeverStranded(trace: seq<Moment>, before: Catalog) {
    forall m | m in trace && m.file != before :: NothingLost(m.jobs, before.profiles, m.file.profiles)
  }

  /** The history leads step by step from `before` to `now`, and every moment of it is safe. */
  ghost predicate Recorded(trace: seq<Moment>, before: Moment, now: Moment, update: Update) {
    && trace != [] && trace[0] == before && trace[|trace| - 1] == now
    && (forall i, j | 0 <= i < j < |trace| && j == i + 1 :: NextMoment(trace[i], trace[j]))
    && Safe(now, before, update) && forall m | m in trace :: Safe(m, before, update)
  }

  lemma {:induction false} FindIsLast(profiles: seq<Profile>, id: int)
    ensures Find(profiles, id).None? <==> forall p | p in profiles :: p.id != id
    ensures Find(profiles, id).Some? ==>
              exists i | 0 <= i < |profiles| ::
                profiles[i] == Find(profiles, id).value && profiles[i].id == id
                && forall k | i < k < |profiles| :: profiles[k].id != id
  {
    if profiles != [] {
      var last, rest := |profiles| - 1, profiles[..|profiles| - 1];
      if profiles[last].id != id {
        FindIsLast(rest, id);
        if i :| 0 <= i < |rest| && rest[i].id == id && Find(rest, id) == Some(rest[i])
                && forall k | i < k < |rest| :: rest[k].id != id {
          assert profiles[i] == rest[i];
          assert forall k | i < k < |profiles| :: profiles[k].id != id by {
            assert forall k | i < k < |rest| :: profiles[k] == rest[k];
          }
        }
        assert forall p :: p in profiles <==> p in rest || p == profiles[last];
      } else {
        assert profiles[last] in profiles;
      }
    }
  }

  lemma OnlyLast(after: seq<Profile>, id: int, i: nat, m: nat)
    requires i < |after| && m < |after| && after[i].id == id && after[m].id == id
    requires forall k | i < k < |after| :: after[k].id != id
    requires forall k | m < k < |after| :: after[k].id != id
    ensures i == m
  {
  }

  /** A write takes `before` away from exactly the jobs that want it and do not keep it. */
  lemma AffectedMeans(jobs: map<JobId, Job>, before: Profile, after: seq<Profile>, j: JobId)
    requires j in jobs
    ensures j in Affected(jobs, before, after) <==> Wants(jobs[j], before) && !Keeps(jobs[j], before, after)
  {
    FindIsLast(after, before.id);
    var found := Find(after, before.id);
    if found.Some? {
      var i :| 0 <= i < |after| && after[i] == found.value && forall k | i < k < |after| :: after[k].id != before.id;
      forall m | 0 <= m < |after| && Succeeds(after, m, before) ensures m == i {
        OnlyLast(after, before.id, i, m);
      }
      if after[i].localRoot == before.localRoot && after[i].importRoot == before.importRoot {
        assert Succeeds(after, i, before);
        assert Keeps(jobs[j], before, after) <==> (jobs[j].client in before.clients ==> jobs[j].client in after[i].clients);
        assert Keeps(jobs[j], before, after) <==> jobs[j].client !in before.clients - after[i].clients;
      } else {
        assert !Keeps(jobs[j], before, after);
      }
    } else {
      forall m | 0 <= m < |after| ensures !Succeeds(after, m, before) {
        assert after[m] in after;
      }
    }
  }

  class Settings {
    var file: Catalog
    var live: Catalog
    var jobs: map<JobId, Job>
    ghost var trace: seq<Moment>

    ghost function Now(): Moment
      reads this
    {
      Moment(file, live, jobs)
    }

    /** Records what an interruption now would leave; `last` is what one would have left before. */
    ghost method Note(before: Moment, last: Moment, update: Update)
      requires Recorded(trace, before, last, update) && NextMoment(last, Now()) && Safe(Now(), before, update)
      modifies this`trace
      ensures Recorded(trace, before, Now(), update) && NeverStranded(trace, before.file)
    {
      trace := trace + [Now()];
    }

    ghost method Begin(update: Update)
      modifies this`trace
      ensures Recorded(trace, Now(), Now(), update) && NeverStranded(trace, file)
    {
      trace := [Now()];
    }

    /** Puts a catalog in force. */
    method Apply(catalog: Catalog, ghost before: Moment, ghost update: Update)
      requires Recorded(trace, before, Now(), update)
      modifies this`live, this`trace
      ensures live == catalog && Recorded(trace, before, Now(), update) && NeverStranded(trace, before.file)
    {
      ghost var last := Now();
      live := catalog;
      Note(before, last, update);
    }

    /** Commits what is retired to the database. */
    method CommitRetired(retiring: set<JobId>, ghost before: Moment, ghost update: Update)
      requires Recorded(trace, before, Now(), update) && file == before.file && jobs == before.jobs
      requires retiring == Retiring(jobs, file.profiles, update.profiles, update.authorized)
      modifies this`jobs, this`trace
      ensures jobs == Retired(old(jobs), retiring)
      ensures Recorded(trace, before, Now(), update) && NeverStranded(trace, before.file)
    {
      hide Retiring, Retired, NothingLost;
      ghost var last := Now();
      jobs := Retired(jobs, retiring);
      Note(before, last, update);
    }

    /** Writes the catalog file. */
    method Save(catalog: Catalog, ghost before: Moment, ghost update: Update)
      requires Recorded(trace, before, Now(), update)
      requires NothingLost(jobs, before.file.profiles, catalog.profiles)
      modifies this`file, this`trace
      ensures file == catalog && Recorded(trace, before, Now(), update) && NeverStranded(trace, before.file)
    {
      hide Retiring, Retired, NothingLost;
      ghost var last := Now();
      file := catalog;
      Note(before, last, update);
    }

    /** Judges what the write would take away from the jobs of each stored profile. */
    method Judge(profiles: seq<Profile>, authorized: set<int>) returns (uses: seq<Use>, retiring: set<JobId>)
      ensures uses == Uses(jobs, file.profiles, profiles, authorized)
      ensures uses != [] <==> exists j | j in jobs :: Loses(jobs[j], file.profiles, profiles, authorized, false)
      ensures forall j :: j in retiring <==> j in jobs && Loses(jobs[j], file.profiles, profiles, authorized, true)
      ensures retiring == Retiring(jobs, file.profiles, profiles, authorized)
    {
      hide Affected, Loses, Refuses, Retiring, Uses;
      uses, retiring := [], {};
      NothingJudged(jobs, profiles, authorized);
      for k := 0 to |file.profiles|
        invariant uses == Uses(jobs, file.profiles[..k], profiles, authorized)
        invariant uses != [] <==> Refuses(jobs, file.profiles[..k], profiles, authorized)
        invariant retiring == Retiring(jobs, file.profiles[..k], profiles, authorized)
      {
        var before := file.profiles[k];
        var narrowing := Narrows(before, Find(profiles, before.id));
        assert file.profiles[..k + 1] == file.profiles[..k] + [before];
        JudgedMore(jobs, file.profiles[..k], before, profiles, authorized);
        UsesMore(jobs, file.profiles[..k], before, profiles, authorized);
        AffectedBy(jobs, before, profiles);
        if narrowing.Some? {
          var dependents := DependentsOf(jobs, before.id, narrowing.value.clients);
          if dependents != {} && before.id in authorized {
            retiring := retiring + dependents;
          } else if dependents != {} {
            Nonempty(dependents);
            uses := uses + [Use(before.id, narrowing.value.change, |dependents|)];
          }
        }
      }
      assert file.profiles[..|file.profiles|] == file.profiles;
      RefusesMeans(jobs, file.profiles, profiles, authorized);
      RetiringMeans(jobs, file.profiles, profiles, authorized);
    }

    static method Sum(uses: seq<Use>) returns (total: nat)
      ensures total == Total(uses)
    {
      total := 0;
      for k := 0 to |uses|
        invariant total == Total(uses[..k])
      {
        assert uses[..k + 1][..k] == uses[..k];
        total := total + uses[k].affected;
      }
      assert uses[..|uses|] == uses;
    }

    /** Replaces the catalog. `confined` is whether a path lies in the download folder, `valid` what the catalog's own
        model accepts. */
    method PutExternalProfiles(update: Update, confined: int -> bool, valid: Catalog -> bool,
                               commit: CommitFate, save: SaveFate) returns (outcome: Outcome)
      requires live == file
      modifies this
      // How it ends.
      ensures outcome.StaleRevision? <==> old(file).revision != update.expected
      ensures outcome.StaleRevision? ==> outcome.revision == old(file).revision
      ensures var next := Catalog(old(file).revision + 1, update.profiles);
              outcome.InvalidProfile? <==>
                old(file).revision == update.expected
                && !(Contained(old(file).profiles, update.profiles, confined) && valid(next))
      ensures var next := Catalog(old(file).revision + 1, update.profiles);
              outcome.InUse? <==>
                && old(file).revision == update.expected
                && Contained(old(file).profiles, update.profiles, confined) && valid(next)
                && Refuses(old(jobs), old(file).profiles, update.profiles, update.authorized)
      ensures outcome.InUse? ==>
                && outcome.uses == Uses(old(jobs), old(file).profiles, update.profiles, update.authorized)
                && outcome.affected == Total(outcome.uses)
      // Who is in the way, and who is retired, in terms of the jobs.
      ensures var next := Catalog(old(file).revision + 1, update.profiles);
              outcome.InUse? <==>
                && old(file).revision == update.expected
                && Contained(old(file).profiles, update.profiles, confined) && valid(next)
                && exists j | j in old(jobs) :: Loses(old(jobs)[j], old(file).profiles, update.profiles, update.authorized, false)
      ensures outcome.Replaced? || (outcome.Interrupted? && commit != NotCommitted) ==>
                && jobs.Keys == old(jobs).Keys
                && forall j | j in jobs ::
                     jobs[j] == if Loses(old(jobs)[j], old(file).profiles, update.profiles, update.authorized, true)
                                then old(jobs)[j].(retired := true) else old(jobs)[j]
      ensures NeverStranded(trace, old(file))
      ensures outcome.Replaced? ==> commit == Committed && save == Saved
      ensures outcome.Interrupted? ==> commit != Committed || save != Saved
      // What it leaves.
      ensures outcome.StaleRevision? || outcome.InvalidProfile? || outcome.InUse? ==>
                file == old(file) && live == old(live) && jobs == old(jobs)
      ensures var retiring := Retiring(old(jobs), old(file).profiles, update.profiles, update.authorized);
              && (outcome.Replaced? ==>
                    && file == live == Catalog(old(file).revision + 1, update.profiles)
                    && jobs == Retired(old(jobs), retiring) && outcome.retired == retiring)
              && (outcome.Interrupted? ==>
                    && live == old(live)
                    && jobs == (if commit == NotCommitted then old(jobs) else Retired(old(jobs), retiring))
                    && file == if commit == Committed && save == SavedInterrupted
                               then Catalog(old(file).revision + 1, update.profiles) else old(file))
      // What an interruption at any point would leave.
      ensures Recorded(trace, old(Now()), Now(), update)
    {
      hide Retiring;
      hide Refuses, Total;
      hide Affected;
      hide Retired;
      hide Contained;
      hide NothingLost, Loses, Uses, Find, Recorded, NeverStranded;
      var previous := file;
      ghost var start := Now();
      Begin(update);
      if file.revision != update.expected {
        return StaleRevision(file.revision);
      }
      var contained := CheckContained(update.profiles, confined);
      var catalog := Catalog(file.revision + 1, update.profiles);
      if !contained || !valid(catalog) {
        return InvalidProfile;
      }
      var uses, retiring := Judge(update.profiles, update.authorized);
      RefusesMeans(jobs, file.profiles, update.profiles, update.authorized);
      if uses != [] {
        var total := Sum(uses);
        return InUse(uses, total);
      }
      RetiredMeans(jobs, file.profiles, update.profiles, update.authorized);
      StrandedRetired(jobs, file.profiles, update.profiles, update.authorized);
      Apply(catalog, start, update);
      if commit == NotCommitted {
        Apply(previous, start, update);
        return Interrupted;
      }
      CommitRetired(retiring, start, update);
      if commit == CommittedInterrupted || save == NotSaved {
        Apply(previous, start, update);
        return Interrupted;
      }
      Save(catalog, start, update);
      if save == SavedInterrupted {
        Apply(previous, start, update);
        return Interrupted;
      }
      return Replaced(retiring);
    }

    method CheckContained(profiles: seq<Profile>, confined: int -> bool) returns (ok: bool)
      ensures ok <==> Contained(file.profiles, profiles, confined)
    {
      for k := 0 to |profiles|
        invariant Contained(file.profiles, profiles[..k], confined)
      {
        assert profiles[..k + 1] == profiles[..k] + [profiles[k]];
        if Find(file.profiles, profiles[k].id) != Some(profiles[k]) && !confined(profiles[k].localRoot) {
          assert profiles[k] in profiles;
          return false;
        }
      }
      assert profiles[..|profiles|] == profiles;
      return true;
    }
  }

  lemma JudgedMore(jobs: map<JobId, Job>, stored: seq<Profile>, p: Profile, after: seq<Profile>, authorized: set<int>)
    ensures Refuses(jobs, stored + [p], after, authorized) <==>
              Refuses(jobs, stored, after, authorized) || (p.id !in authorized && Affected(jobs, p, after) != {})
    ensures Retiring(jobs, stored + [p], after, authorized) ==
              Retiring(jobs, stored, after, authorized) + (if p.id in authorized then Affected(jobs, p, after) else {})
  {
    assert forall x :: x in stored + [p] <==> x in stored || x == p;
  }

  lemma NothingJudged(jobs: map<JobId, Job>, after: seq<Profile>, authorized: set<int>)
    ensures !Refuses(jobs, [], after, authorized) && Retiring(jobs, [], after, authorized) == {}
    ensures Uses(jobs, [], after, authorized) == []
  {
  }

  lemma UsesMore(jobs: map<JobId, Job>, stored: seq<Profile>, p: Profile, after: seq<Profile>, authorized: set<int>)
    ensures var narrowing, affected := Narrows(p, Find(after, p.id)), |Affected(jobs, p, after)|;
            Uses(jobs, stored + [p], after, authorized) ==
              Uses(jobs, stored, after, authorized)
              + (if narrowing.Some? && affected > 0 && p.id !in authorized
                 then [Use(p.id, narrowing.value.change, affected)] else [])
  {
    assert (stored + [p])[..|stored|] == stored;
  }

  lemma AffectedBy(jobs: map<JobId, Job>, before: Profile, after: seq<Profile>)
    ensures var n := Narrows(before, Find(after, before.id));
            Affected(jobs, before, after) == if n.None? then {} else DependentsOf(jobs, before.id, n.value.clients)
  {
  }

  lemma Nonempty(jobs: set<JobId>)
    ensures |jobs| > 0 <==> jobs != {}
  {
  }

  lemma RefusesMeans(jobs: map<JobId, Job>, stored: seq<Profile>, after: seq<Profile>, authorized: set<int>)
    ensures Refuses(jobs, stored, after, authorized) <==>
              exists j | j in jobs :: Loses(jobs[j], stored, after, authorized, false)
  {
    hide Affected, Wants, Keeps;
    forall before, j | j in jobs {
      AffectedMeans(jobs, before, after, j);
    }
    forall before | Affected(jobs, before, after) != {} ensures exists j :: j in jobs && j in Affected(jobs, before, after) {
      AffectedSome(jobs, before, after);
    }
  }

  lemma AffectedSome(jobs: map<JobId, Job>, before: Profile, after: seq<Profile>)
    requires Affected(jobs, before, after) != {}
    ensures exists j :: j in jobs && j in Affected(jobs, before, after)
  {
    var j :| j in Affected(jobs, before, after);
  }

  lemma RetiringMeans(jobs: map<JobId, Job>, stored: seq<Profile>, after: seq<Profile>, authorized: set<int>)
    ensures forall j :: j in Retiring(jobs, stored, after, authorized) <==>
              j in jobs && Loses(jobs[j], stored, after, authorized, true)
  {
    hide Wants, Keeps, Affected;
    forall j, before | before in stored
      ensures j in Affected(jobs, before, after) <==> j in jobs && Wants(jobs[j], before) && !Keeps(jobs[j], before, after)
    {
      AffectedIn(jobs, before, after, j);
      if j in jobs {
        AffectedMeans(jobs, before, after, j);
      }
    }
  }

  lemma AffectedIn(jobs: map<JobId, Job>, before: Profile, after: seq<Profile>, j: JobId)
    ensures j in Affected(jobs, before, after) ==> j in jobs
  {
  }

  lemma RetiredMeans(jobs: map<JobId, Job>, stored: seq<Profile>, after: seq<Profile>, authorized: set<int>)
    ensures var left := Retired(jobs, Retiring(jobs, stored, after, authorized));
            && left.Keys == jobs.Keys
            && forall j | j in jobs ::
                 left[j] == if Loses(jobs[j], stored, after, authorized, true) then jobs[j].(retired := true) else jobs[j]
  {
    hide Loses, Retiring;
    RetiringMeans(jobs, stored, after, authorized);
  }

  /** Each profile named in a refusal is one the write was not authorized to narrow, with what the write would do to it
      and the number of jobs it would take it from; and every such profile is named. */
  lemma {:induction false} UsesMean(jobs: map<JobId, Job>, stored: seq<Profile>, after: seq<Profile>, authorized: set<int>, u: Use)
    ensures u in Uses(jobs, stored, after, authorized) <==>
              exists before | before in stored ::
                && u.id == before.id && before.id !in authorized
                && u.affected == |set j | j in jobs && Wants(jobs[j], before) && !Keeps(jobs[j], before, after)| > 0
                && (u.change.Deleted? <==> forall p | p in after :: p.id != before.id)
                && (u.change.ClientsRemoved? <==> exists i | 0 <= i < |after| :: Succeeds(after, i, before))
  {
    hide Wants, Keeps, Succeeds, Affected;
    if stored != [] {
      var last, rest := stored[|stored| - 1], stored[..|stored| - 1];
      UsesMean(jobs, rest, after, authorized, u);
      NarrowsMeans(last, after);
      AffectedSet(jobs, last, after);
      assert forall p :: p in stored <==> p in rest || p == last;
    }
  }

  lemma AffectedSet(jobs: map<JobId, Job>, before: Profile, after: seq<Profile>)
    ensures Affected(jobs, before, after) == set j | j in jobs && Wants(jobs[j], before) && !Keeps(jobs[j], before, after)
  {
    hide Wants, Keeps;
    forall j | j in Affected(jobs, before, after) ensures j in jobs {
    }
    hide Affected;
    forall j | j in jobs {
      AffectedMeans(jobs, before, after, j);
    }
  }

  lemma NarrowsMeans(before: Profile, after: seq<Profile>)
    ensures var n := Narrows(before, Find(after, before.id));
            && (n.None? ==> forall jobs :: Affected(jobs, before, after) == {})
            && (n.Some? ==>
                  && (n.value.change.Deleted? <==> forall p | p in after :: p.id != before.id)
                  && (n.value.change.ClientsRemoved? <==> exists i | 0 <= i < |after| :: Succeeds(after, i, before)))
  {
    FindIsLast(after, before.id);
    var found := Find(after, before.id);
    if found.Some? {
      var i :| 0 <= i < |after| && after[i] == found.value && after[i].id == before.id
               && forall k | i < k < |after| :: after[k].id != before.id;
      forall m | 0 <= m < |after| && Succeeds(after, m, before) ensures m == i {
        OnlyLast(after, before.id, i, m);
      }
      assert after[i] in after;
      if after[i].localRoot == before.localRoot && after[i].importRoot == before.importRoot {
        assert Succeeds(after, i, before);
      }
    } else {
      forall m | 0 <= m < |after| ensures !Succeeds(after, m, before) {
        assert after[m] in after;
      }
    }
  }

  /** The jobs that lose something of a profile the operator did not name. */
  ghost function InTheWay(jobs: map<JobId, Job>, stored: seq<Profile>, after: seq<Profile>, authorized: set<int>): set<JobId> {
    set j | j in jobs && Loses(jobs[j], stored, after, authorized, false)
  }

  lemma InTheWayMore(jobs: map<JobId, Job>, stored: seq<Profile>, p: Profile, after: seq<Profile>, authorized: set<int>)
    requires forall q | q in stored :: q.id != p.id
    ensures |InTheWay(jobs, stored + [p], after, authorized)| ==
              |InTheWay(jobs, stored, after, authorized)| + if p.id in authorized then 0 else |Affected(jobs, p, after)|
  {
    hide Affected, Loses;
    var before, all := InTheWay(jobs, stored, after, authorized), InTheWay(jobs, stored + [p], after, authorized);
    var here := if p.id in authorized then {} else Affected(jobs, p, after);
    AffectedHere(jobs, p, after);
    forall j | j in jobs ensures j in all <==> j in before || j in here {
      LosesMore(jobs, stored, p, after, authorized, j);
    }
    forall j | j in before ensures j !in here {
      LosesOwn(jobs[j], stored, after, authorized);
      AffectedOwn(jobs, p, after, j);
    }
    assert all == before + here;
  }

  lemma AffectedOwn(jobs: map<JobId, Job>, p: Profile, after: seq<Profile>, j: JobId)
    requires j in jobs
    ensures j in Affected(jobs, p, after) ==> jobs[j].profile == p.id
  {
  }

  /** Where no two stored profiles share an identifier, the number a refusal reports is the number of jobs in the way. */
  lemma {:induction false} TotalIsJobs(jobs: map<JobId, Job>, stored: seq<Profile>, after: seq<Profile>, authorized: set<int>)
    requires forall i, k | 0 <= i < k < |stored| :: stored[i].id != stored[k].id
    ensures Total(Uses(jobs, stored, after, authorized)) == |InTheWay(jobs, stored, after, authorized)|
  {
    hide Affected, Narrows, Find, Uses, Total, InTheWay;
    if stored == [] {
      NothingLoses(jobs, after, authorized);
    } else {
      var n := |stored| - 1;
      var rest, last := stored[..n], stored[n];
      assert rest + [last] == stored;
      TotalIsJobs(jobs, rest, after, authorized);
      InTheWayMore(jobs, rest, last, after, authorized);
      UsesMore(jobs, rest, last, after, authorized);
      AffectedHere(jobs, last, after);
      TotalMore(Uses(jobs, rest, after, authorized), last.id, Narrows(last, Find(after, last.id)), |Affected(jobs, last, after)|,
                last.id !in authorized);
    }
  }

  lemma NothingLoses(jobs: map<JobId, Job>, after: seq<Profile>, authorized: set<int>)
    ensures InTheWay(jobs, [], after, authorized) == {} && Total(Uses(jobs, [], after, authorized)) == 0
  {
  }

  lemma LosesMore(jobs: map<JobId, Job>, stored: seq<Profile>, p: Profile, after: seq<Profile>, authorized: set<int>, j: JobId)
    requires j in jobs
    ensures Loses(jobs[j], stored + [p], after, authorized, false) <==>
              Loses(jobs[j], stored, after, authorized, false) || (p.id !in authorized && j in Affected(jobs, p, after))
  {
    hide Affected, Wants, Keeps;
    AffectedMeans(jobs, p, after, j);
    assert forall x :: x in stored + [p] <==> x in stored || x == p;
  }

  lemma LosesOwn(job: Job, stored: seq<Profile>, after: seq<Profile>, authorized: set<int>)
    requires Loses(job, stored, after, authorized, false)
    ensures exists before | before in stored :: before.id == job.profile
  {
  }

  lemma AffectedHere(jobs: map<JobId, Job>, before: Profile, after: seq<Profile>)
    ensures forall j | j in Affected(jobs, before, after) :: j in jobs
    ensures Narrows(before, Find(after, before.id)).None? ==> Affected(jobs, before, after) == {}
  {
  }

  lemma TotalMore(uses: seq<Use>, id: int, n: Option<Narrowing>, affected: nat, counts: bool)
    ensures Total(uses + (if n.Some? && affected > 0 && counts then [Use(id, n.value.change, affected)] else [])) ==
              Total(uses) + if n.Some? && counts then affected else 0
  {
    if n.Some? && affected > 0 && counts {
      var more := uses + [Use(id, n.value.change, affected)];
      assert more[..|more| - 1] == uses;
    } else {
      assert uses + [] == uses;
    }
  }

  /** A catalog is contained exactly if every profile that is not the last stored one of its id, unchanged, has its root
      confined. */
  lemma ContainedMeans(stored: seq<Profile>, profiles: seq<Profile>, confined: int -> bool)
    ensures Contained(stored, profiles, confined) <==>
              forall p | p in profiles ::
                || confined(p.localRoot)
                || exists i | 0 <= i < |stored| :: stored[i] == p && forall k | i < k < |stored| :: stored[k].id != p.id
  {
    forall p | p in profiles
      ensures Find(stored, p.id) == Some(p) <==>
                exists i | 0 <= i < |stored| :: stored[i] == p && forall k | i < k < |stored| :: stored[k].id != p.id
    {
      FindIsLast(stored, p.id);
      if i :| 0 <= i < |stored| && stored[i] == p && forall k | i < k < |stored| :: stored[k].id != p.id {
        assert stored[i] in stored;
        var m :| 0 <= m < |stored| && stored[m] == Find(stored, p.id).value && stored[m].id == p.id
                 && forall k | m < k < |stored| :: stored[k].id != p.id;
        OnlyLast(stored, p.id, i, m);
      }
    }
  }

  /** After a write that is not refused no job loses anything it wants: what it would have lost is retired. */
  lemma StrandedRetired(jobs: map<JobId, Job>, stored: seq<Profile>, after: seq<Profile>, authorized: set<int>)
    requires forall j | j in jobs :: !Loses(jobs[j], stored, after, authorized, false)
    ensures NothingLost(Retired(jobs, Retiring(jobs, stored, after, authorized)), stored, after)
  {
    hide Keeps, Retired, Retiring, Wants;
    RetiredMeans(jobs, stored, after, authorized);
    var left := Retired(jobs, Retiring(jobs, stored, after, authorized));
    forall before, j | before in stored && j in left ensures Wants(left[j], before) ==> Keeps(left[j], before, after) {
      KeptOrRetired(jobs[j], left[j], before, after);
      if before.id in authorized && Wants(jobs[j], before) && !Keeps(jobs[j], before, after) {
        assert left[j] == jobs[j].(retired := true);
        RetiredWantsNothing(jobs[j], before);
      }
    }
  }

  lemma RetiredWantsNothing(job: Job, before: Profile)
    ensures !Wants(job.(retired := true), before)
  {
  }

  lemma KeptOrRetired(job: Job, left: Job, before: Profile, after: seq<Profile>)
    requires left == job || left == job.(retired := true)
    ensures Wants(left, before) ==> left == job
  {
  }

  /** Only jobs of profiles the operator named are ever retired, and only those the write takes something from. */
  lemma OnlyAuthorizedRetired(jobs: map<JobId, Job>, stored: seq<Profile>, after: seq<Profile>, authorized: set<int>, j: JobId)
    requires j in jobs
    ensures var left := Retired(jobs, Retiring(jobs, stored, after, authorized));
            left[j] != jobs[j] ==>
              && jobs[j].profile in authorized && !jobs[j].settled
              && exists before | before in stored :: Wants(jobs[j], before) && !Keeps(jobs[j], before, after)
  {
    hide Keeps, Retired, Retiring;
    RetiredMeans(jobs, stored, after, authorized);
  }
}
