/** Replacing the whole stored state by a restore point. Every wait may complete, fail or be cancelled, and the
    property is about every such history: what is on disk, who may serve it, and what a refusal puts back. */
module Restore {
  import opened Support

  /** How one wait ends for the restore. */
  datatype Fate = Completes | Fails | Cancelled

  /** The waits of a restore, in the order it may reach them. */
  datatype Point =
    | Validate | EnterAdmission | ReadIntent | StopScheduler | Drain
    | StopStartup | Checkpoint | Stop(integration: nat)
    | EnterMaintenance | RecordIntent | CreateSafety | Stage | CheckStaged | CheckLive
    | StartRestored | EnterToSeal | EnterToRollBack | StartPrevious | ResumePrevious | JournalFailure
    | ReopenIntegrations | Start(integration: nat) | ReopenIntent | JournalRefusal
    | JournalSuccess

  /** What a swap of the stored files comes to, in either direction. */
  datatype Swap = Moved | PutBack | Stuck

  /** Everything outside the restore's control: the fate of every wait, what the swap and its reversal come to,
      and how many cancellations arrive while each of them moves files. */
  datatype World = World(at: Point -> Fate, activate: Swap, cancelsInActivate: nat, rollback: Swap, cancelsInRollback: nat)

  datatype Disk = Old | NewUncommitted | NewCommitted | Mixed
  /** Which application object `state` designates. */
  datatype Designated = Current | Restored | Reinstated
  datatype Status = Running | Starting | Idle | Degraded

  /** How a restore ends: it replaced the state; it reported that nothing was replaced; it reported the previous
      state reinstated, or the state unresolved; or a cancellation or another error unwound it. */
  datatype Outcome = Succeeded | Rejected | NotReplaced(code: int) | PreviousBack | Unresolved | Interrupted | Broken

  /** What an observer could see between two steps. */
  datatype Moment = Moment(disk: Disk, sealed: bool, admissionSealed: bool, held: bool, designated: Designated)

  const GLOBALLY_PAUSED := -1

  /** The designated application accepts work: storage is not sealed, and its admission is neither held by the
      restore nor sealed. Only the replaced application's admission is ever held or sealed. */
  predicate Serves(m: Moment) {
    !m.sealed && !(m.designated == Current && (m.held || m.admissionSealed))
  }

  /** Nothing serves a state that is not whole and its own. */
  predicate Sound(m: Moment) {
    Serves(m) ==> if m.designated == Restored then m.disk == NewCommitted else m.disk == Old
  }

  ghost predicate AllSound(trace: seq<Moment>) {
    forall m | m in trace :: Sound(m)
  }

  /** A seal is never undone. */
  ghost predicate SealsKept(trace: seq<Moment>) {
    forall i, j | 0 <= i < j < |trace| :: trace[i].sealed ==> trace[j].sealed
  }

  /** One step of what an observer could see: files start or end moving or are committed; the admission is entered or
      left; another application is designated; or storage and admission are sealed together. */
  predicate NextMoment(m: Moment, n: Moment) {
    || (n == m.(disk := n.disk) && (n.disk == m.disk || m.disk == Mixed || n.disk == Mixed
                                    || (m.disk == NewUncommitted && n.disk == NewCommitted)))
    || n == m.(held := n.held)
    || n == m.(designated := n.designated)
    || n == m.(sealed := true, admissionSealed := true)
  }

  /** The history leads step by step from `began` to `now`: no moment is missing from it. */
  ghost predicate Gapless(trace: seq<Moment>, began: Moment, now: Moment) {
    && trace != [] && trace[0] == began && trace[|trace| - 1] == now
    && forall i, j | 0 <= i < j < |trace| && j == i + 1 :: NextMoment(trace[i], trace[j])
  }

  lemma GaplessMore(trace: seq<Moment>, began: Moment, before: Moment, now: Moment)
    requires Gapless(trace, began, before) && NextMoment(before, now)
    ensures Gapless(trace + [now], began, now)
  {
    hide NextMoment;
  }

  /** The history so far misses nothing and was sound, and any seal in it still stands in `now`. */
  ghost predicate Orderly(trace: seq<Moment>, began: Moment, now: Moment) {
    && Gapless(trace, began, now)
    && AllSound(trace) && SealsKept(trace) && forall m | m in trace :: m.sealed ==> now.sealed
  }

  lemma OrderlyMore(trace: seq<Moment>, began: Moment, before: Moment, now: Moment)
    requires Orderly(trace, began, before) && Sound(now) && (before.sealed ==> now.sealed) && NextMoment(before, now)
    ensures Orderly(trace + [now], began, now)
  {
    hide NextMoment, Gapless;
    GaplessMore(trace, began, before, now);
  }

  // ---- stopping and starting integrations ---------------------------------------------------------

  /** How many integrations, taken from the end, stop before one does not. */
  function StopCount(w: World, ids: seq<nat>): (n: nat)
    ensures n <= |ids|
  {
    if ids == [] || w.at(Stop(ids[|ids| - 1])) != Completes then 0 else 1 + StopCount(w, ids[..|ids| - 1])
  }

  /** The integrations a stop reaches and stops. */
  function StoppedOf(w: World, ids: seq<nat>): set<nat> {
    Elements(ids[|ids| - StopCount(w, ids)..])
  }

  /** The statuses once a startup in flight is cancelled. */
  function StartupEnded(status: map<nat, Status>): map<nat, Status> {
    map i | i in status :: if status[i] == Starting then Idle else status[i]
  }

  function Halted(status: map<nat, Status>, stopped: set<nat>): map<nat, Status> {
    map i | i in status :: if i in stopped then Idle else status[i]
  }

  /** Every integration of `only` started, each on its own: a failed start degrades that integration alone. */
  function Started(w: World, status: map<nat, Status>, only: set<nat>): map<nat, Status> {
    map i | i in status ::
      if i in only then (if w.at(Start(i)) == Completes then Running else Degraded) else status[i]
  }

  datatype StopResult = AllStopped | StopFailed(stopped: set<nat>) | StopCancelled

  lemma StartedNone(w: World, status: map<nat, Status>)
    ensures Started(w, status, {}) == status
  {
  }

  lemma HaltedMore(status: map<nat, Status>, stopped: set<nat>, i: nat)
    ensures Halted(status, stopped + {i}) == Halted(Halted(status, stopped), {i})
  {
  }

  lemma HaltedOne(status: map<nat, Status>, i: nat)
    ensures Halted(status, {i}) == map j | j in status :: if j == i then Idle else status[j]
    ensures Halted(status, {}) == status
  {
  }

  // ---- the reachable prefixes of a restore --------------------------------------------------------

  predicate Done(w: World, p: Point) {
    w.at(p) == Completes
  }

  /** The restore gets as far as the drain. */
  predicate Quiesces(w: World) {
    Done(w, Validate) && Done(w, EnterAdmission) && Done(w, ReadIntent) && w.at(StopScheduler) != Cancelled
  }

  /** The stop of the integrations begins with nothing cancelled. */
  predicate Stops(w: World) {
    Done(w, Drain) && w.at(StopStartup) != Cancelled && w.at(Checkpoint) != Cancelled
  }

  /** Nothing but the swap is left to do. */
  predicate Prepares(w: World, ids: seq<nat>) {
    && Quiesces(w) && Stops(w) && StopCount(w, ids) == |ids| && Done(w, EnterMaintenance) && Done(w, RecordIntent)
    && Done(w, CreateSafety) && Done(w, Stage) && Done(w, CheckStaged) && Done(w, CheckLive)
  }

  /** The restored files are in place and the restore goes on. */
  predicate Swaps(w: World, ids: seq<nat>) {
    Prepares(w, ids) && w.activate == Moved && w.cancelsInActivate == 0
  }

  /** The one way to expose the swapped files: the restored application did not start, and then the maintenance
      under which they would be sealed or rolled back could not be entered. */
  predicate Exposes(w: World, ids: seq<nat>) {
    && Swaps(w, ids)
    && ((w.at(StartRestored) == Fails && !Done(w, EnterToRollBack))
        || (w.at(StartRestored) == Cancelled && !Done(w, EnterToSeal)))
  }

  /** The rollback of a restored state that failed to start is reached. */
  predicate RollsBack(w: World, ids: seq<nat>) {
    Swaps(w, ids) && w.at(StartRestored) == Fails && Done(w, EnterToRollBack)
  }

  /** Every wait of putting back what a refused restore changed completes; `stopped` is what it must start. */
  predicate PutsBack(w: World, stopped: set<nat>) {
    && (stopped == {} || w.at(ReopenIntegrations) != Cancelled)
    && Done(w, ReopenIntent) && w.at(JournalRefusal) != Cancelled
  }

  /** A refusal while stopping work. */
  predicate RefusedStopping(w: World, ids: seq<nat>) {
    Quiesces(w) && (w.at(Drain) == Fails || (Stops(w) && StopCount(w, ids) < |ids|
                                              && w.at(Stop(ids[|ids| - 1 - StopCount(w, ids)])) == Fails))
  }

  /** The statuses a refused restore leaves: what it stopped is started again. */
  function StatusAfterRefusal(w: World, ids: seq<nat>, status: map<nat, Status>): map<nat, Status> {
    if w.at(Drain) == Fails then status
    else Started(w, Halted(StartupEnded(status), StoppedOf(w, ids)), StoppedOf(w, ids))
  }

  /** What the preparation and the swap themselves come to: the first step that does not complete decides. */
  function Preparation(w: World): Fate {
    if !Done(w, EnterMaintenance) then w.at(EnterMaintenance)
    else if !Done(w, RecordIntent) then w.at(RecordIntent)
    else if !Done(w, CreateSafety) then w.at(CreateSafety)
    else if !Done(w, Stage) then w.at(Stage)
    else if !Done(w, CheckStaged) then w.at(CheckStaged)
    else w.at(CheckLive)
  }

  /** A refusal while preparing the swap, or by a swap that was put back. */
  predicate RefusedPreparing(w: World, ids: seq<nat>) {
    && Quiesces(w) && Stops(w) && StopCount(w, ids) == |ids|
    && (Preparation(w) == Fails || (Preparation(w) == Completes && w.activate == PutBack))
  }

  // ---- the same prefixes, wait by wait --------------------------------------------------------------

  const QUIESCING := [Validate, EnterAdmission, ReadIntent, StopScheduler, Drain, StopStartup, Checkpoint]
  const PREPARING := [EnterMaintenance, RecordIntent, CreateSafety, Stage, CheckStaged, CheckLive]

  /** The integrations are stopped from the last to the first. */
  function StopPoints(ids: seq<nat>): seq<Point> {
    if ids == [] then [] else [Stop(ids[|ids| - 1])] + StopPoints(ids[..|ids| - 1])
  }

  /** The waits before the swap, in their order. */
  function Waits(ids: seq<nat>): seq<Point> {
    QUIESCING + StopPoints(ids) + PREPARING
  }

  /** Stopping the scheduler, a startup in flight and the checkpoint may fail; everything else must complete. */
  predicate Passes(w: World, p: Point) {
    w.at(p) == Completes || (w.at(p) == Fails && p in {StopScheduler, StopStartup, Checkpoint})
  }

  /** The first wait that does not let the restore go on. */
  function FirstHalt(w: World, waits: seq<Point>): Option<Point> {
    if waits == [] then None else if !Passes(w, waits[0]) then Some(waits[0]) else FirstHalt(w, waits[1..])
  }

  /** The stop got to this integration: it and everything after it stopped. */
  ghost predicate WasStopped(w: World, ids: seq<nat>, i: nat) {
    w.at(Drain) == Completes
    && exists k | 0 <= k < |ids| :: ids[k] == i && forall j | k <= j < |ids| :: w.at(Stop(ids[j])) == Completes
  }

  lemma {:induction false} StopCountMeans(w: World, ids: seq<nat>)
    ensures var n := StopCount(w, ids);
            && (forall j | |ids| - n <= j < |ids| :: w.at(Stop(ids[j])) == Completes)
            && (n < |ids| ==> w.at(Stop(ids[|ids| - 1 - n])) != Completes)
  {
    if ids != [] && w.at(Stop(ids[|ids| - 1])) == Completes {
      StopCountMeans(w, ids[..|ids| - 1]);
    }
  }

  /** What is started again is what was stopped. */
  lemma ReopeningMeans(w: World, ids: seq<nat>, i: nat)
    requires w.at(Drain) != Cancelled
    ensures i in Reopening(w, ids) <==> WasStopped(w, ids, i)
    ensures Reopening(w, ids) == {} <==> w.at(Drain) == Fails || ids == [] || w.at(Stop(ids[|ids| - 1])) != Completes
  {
    StopCountMeans(w, ids);
    var n := StopCount(w, ids);
    var tail := ids[|ids| - n..];
    if WasStopped(w, ids, i) {
      var k :| 0 <= k < |ids| && ids[k] == i && forall j | k <= j < |ids| :: w.at(Stop(ids[j])) == Completes;
      assert k >= |ids| - n;
      assert tail[k - (|ids| - n)] == i;
    }
    if i in StoppedOf(w, ids) {
      var k :| 0 <= k < |tail| && tail[k] == i;
      assert ids[|ids| - n + k] == i;
    }
    if n > 0 {
      assert tail[0] in StoppedOf(w, ids);
    }
  }

  lemma {:induction false} HaltAppend(w: World, a: seq<Point>, b: seq<Point>)
    ensures FirstHalt(w, a + b) == if FirstHalt(w, a).Some? then FirstHalt(w, a) else FirstHalt(w, b)
  {
    if a == [] {
      assert a + b == b;
    } else {
      HaltAppend(w, a[1..], b);
      assert (a + b)[1..] == a[1..] + b;
    }
  }

  lemma {:induction false} StopHalt(w: World, ids: seq<nat>)
    ensures var n := StopCount(w, ids);
            FirstHalt(w, StopPoints(ids)) == if n == |ids| then None else Some(Stop(ids[|ids| - 1 - n]))
  {
    hide FirstHalt;
    if ids == [] {
      EmptyHalt(w);
    } else {
      var rest := ids[..|ids| - 1];
      StopHalt(w, rest);
      HaltStep(w, Stop(ids[|ids| - 1]), StopPoints(rest));
    }
  }

  lemma EmptyHalt(w: World)
    ensures FirstHalt(w, []).None?
  {
  }

  lemma HaltStep(w: World, p: Point, rest: seq<Point>)
    ensures FirstHalt(w, [p] + rest) == if Passes(w, p) then FirstHalt(w, rest) else Some(p)
  {
    assert ([p] + rest)[1..] == rest;
  }

  lemma QuiescingHalt(w: World)
    ensures FirstHalt(w, QUIESCING) ==
              if !Passes(w, Validate) then Some(Validate) else if !Passes(w, EnterAdmission) then Some(EnterAdmission)
              else if !Passes(w, ReadIntent) then Some(ReadIntent) else if !Passes(w, StopScheduler) then Some(StopScheduler)
              else if !Passes(w, Drain) then Some(Drain) else if !Passes(w, StopStartup) then Some(StopStartup)
              else if !Passes(w, Checkpoint) then Some(Checkpoint) else None
  {
    hide Passes;
    HaltStep(w, Checkpoint, []);
    HaltStep(w, StopStartup, [Checkpoint]);
    HaltStep(w, Drain, [StopStartup, Checkpoint]);
    HaltStep(w, StopScheduler, [Drain, StopStartup, Checkpoint]);
    HaltStep(w, ReadIntent, [StopScheduler, Drain, StopStartup, Checkpoint]);
    HaltStep(w, EnterAdmission, [ReadIntent, StopScheduler, Drain, StopStartup, Checkpoint]);
    HaltStep(w, Validate, [EnterAdmission, ReadIntent, StopScheduler, Drain, StopStartup, Checkpoint]);
    assert [Checkpoint] + [] == [Checkpoint];
    assert [StopStartup] + [Checkpoint] == [StopStartup, Checkpoint];
    assert [Drain] + [StopStartup, Checkpoint] == [Drain, StopStartup, Checkpoint];
    assert [StopScheduler] + [Drain, StopStartup, Checkpoint] == [StopScheduler, Drain, StopStartup, Checkpoint];
    assert [ReadIntent] + [StopScheduler, Drain, StopStartup, Checkpoint]
        == [ReadIntent, StopScheduler, Drain, StopStartup, Checkpoint];
    assert [EnterAdmission] + [ReadIntent, StopScheduler, Drain, StopStartup, Checkpoint]
        == [EnterAdmission, ReadIntent, StopScheduler, Drain, StopStartup, Checkpoint];
    assert [Validate] + [EnterAdmission, ReadIntent, StopScheduler, Drain, StopStartup, Checkpoint] == QUIESCING;
  }

  lemma PreparingHalt(w: World)
    ensures FirstHalt(w, PREPARING) ==
              if !Passes(w, EnterMaintenance) then Some(EnterMaintenance)
              else if !Passes(w, RecordIntent) then Some(RecordIntent)
              else if !Passes(w, CreateSafety) then Some(CreateSafety) else if !Passes(w, Stage) then Some(Stage)
              else if !Passes(w, CheckStaged) then Some(CheckStaged)
              else if !Passes(w, CheckLive) then Some(CheckLive) else None
  {
    hide Passes;
    HaltStep(w, CheckLive, []);
    HaltStep(w, CheckStaged, [CheckLive]);
    HaltStep(w, Stage, [CheckStaged, CheckLive]);
    HaltStep(w, CreateSafety, [Stage, CheckStaged, CheckLive]);
    HaltStep(w, RecordIntent, [CreateSafety, Stage, CheckStaged, CheckLive]);
    HaltStep(w, EnterMaintenance, [RecordIntent, CreateSafety, Stage, CheckStaged, CheckLive]);
    assert [CheckLive] + [] == [CheckLive];
    assert [CheckStaged] + [CheckLive] == [CheckStaged, CheckLive];
    assert [Stage] + [CheckStaged, CheckLive] == [Stage, CheckStaged, CheckLive];
    assert [CreateSafety] + [Stage, CheckStaged, CheckLive] == [CreateSafety, Stage, CheckStaged, CheckLive];
    assert [RecordIntent] + [CreateSafety, Stage, CheckStaged, CheckLive]
        == [RecordIntent, CreateSafety, Stage, CheckStaged, CheckLive];
    assert [EnterMaintenance] + [RecordIntent, CreateSafety, Stage, CheckStaged, CheckLive] == PREPARING;
  }

  lemma WaitsHalt(w: World, ids: seq<nat>)
    ensures FirstHalt(w, Waits(ids)) ==
              if FirstHalt(w, QUIESCING).Some? then FirstHalt(w, QUIESCING)
              else if FirstHalt(w, StopPoints(ids)).Some? then FirstHalt(w, StopPoints(ids)) else FirstHalt(w, PREPARING)
  {
    HaltAppend(w, QUIESCING + StopPoints(ids), PREPARING);
    HaltAppend(w, QUIESCING, StopPoints(ids));
  }

  /** How far a restore gets, wait by wait: everything is prepared exactly if nothing halts it; it is refused while stopping
      work exactly if what halts it first is the drain or the stop of an integration, and that failed; and it is refused
      while preparing the swap exactly if what halts it first comes later and failed, or nothing does and the swap was
      put back. */
  lemma PrefixesMean(w: World, ids: seq<nat>)
    ensures var halt := FirstHalt(w, Waits(ids));
            && (Prepares(w, ids) <==> halt.None?)
            && (RefusedStopping(w, ids) <==>
                  halt.Some? && (halt.value.Drain? || halt.value.Stop?) && w.at(halt.value) == Fails)
            && (RefusedPreparing(w, ids) <==>
                  || (halt.Some? && halt.value in PREPARING && w.at(halt.value) == Fails)
                  || (halt.None? && w.activate == PutBack))
            && (Refused(w, ids) <==>
                  if halt.None? then w.activate == PutBack
                  else w.at(halt.value) == Fails && halt.value !in {Validate, EnterAdmission, ReadIntent})
  {
    hide FirstHalt, StopCount;
    WaitsHalt(w, ids);
    QuiescingHalt(w);
    StopHalt(w, ids);
    PreparingHalt(w);
  }

  /** The swapped files are exposed exactly when everything before the swap went through, the swap was made without a
      cancellation, and the restored application did not start and the maintenance to be entered then was not. */
  lemma ExposesMeans(w: World, ids: seq<nat>)
    ensures Exposes(w, ids) <==>
              && FirstHalt(w, Waits(ids)).None? && w.activate == Moved && w.cancelsInActivate == 0
              && match w.at(StartRestored)
                 case Completes => false
                 case Fails => w.at(EnterToRollBack) != Completes
                 case Cancelled => w.at(EnterToSeal) != Completes
  {
    PrefixesMean(w, ids);
  }

  /** The refusal a quiescing that did not go through comes to. */
  datatype Quiesced = Quiet | Refuse(stopped: set<nat>) | Unwound(outcome: Outcome)
  datatype Swapped = InPlace | RefuseSwap | Ended(outcome: Outcome)
  datatype Held = Proceed | Refusal(stopped: set<nat>, code: int) | Over(outcome: Outcome)

  function Unwinding(fate: Fate): Outcome {
    if fate == Cancelled then Interrupted else Broken
  }

  predicate Refused(w: World, ids: seq<nat>) {
    RefusedStopping(w, ids) || RefusedPreparing(w, ids)
  }

  /** The integrations a refusal starts again: those it had stopped by then. */
  function Reopening(w: World, ids: seq<nat>): set<nat> {
    if w.at(Drain) == Fails then {} else StoppedOf(w, ids)
  }

  /** Before the admission is entered nothing of a restore is reached. */
  lemma NotBegun(w: World, ids: seq<nat>)
    requires !Done(w, Validate) || !Done(w, EnterAdmission)
    ensures !Prepares(w, ids) && !Swaps(w, ids) && !Exposes(w, ids) && !RollsBack(w, ids)
    ensures !Refused(w, ids) && !RefusedStopping(w, ids)
  {
  }

  lemma PutBackAs(w: World, ids: seq<nat>, status: map<nat, Status>)
    ensures var stopped := if w.at(Drain) == Fails then status else Halted(StartupEnded(status), StoppedOf(w, ids));
            Started(w, stopped, Reopening(w, ids)) == StatusAfterRefusal(w, ids, status)
    ensures Refused(w, ids) ==> w.at(Drain) != Cancelled
  {
    hide Started, Halted, StartupEnded, StoppedOf;
    StartedNone(w, status);
  }

  /** What a refusal leaves one integration. */
  lemma StatusMeans(w: World, ids: seq<nat>, status: map<nat, Status>, i: nat)
    requires i in status && w.at(Drain) != Cancelled
    ensures var after := StatusAfterRefusal(w, ids, status);
            && i in after
            && (WasStopped(w, ids, i) ==> after[i] == if w.at(Start(i)) == Completes then Running else Degraded)
            && (!WasStopped(w, ids, i) && status[i] != Starting ==> after[i] == status[i])
            && (!WasStopped(w, ids, i) && status[i] == Starting ==>
                  after[i] == if w.at(Drain) == Fails then Starting else Idle)
  {
    ReopeningMeans(w, ids, i);
  }

  /** Each integration that was stopped runs again, or is degraded where its start did not complete; every other keeps its
      status, but for a startup in flight, which ends idle unless the drain already failed. */
  ghost predicate StatusesRight(w: World, ids: seq<nat>, before: map<nat, Status>, after: map<nat, Status>) {
    && after.Keys == before.Keys
    && forall i | i in after ::
         && (WasStopped(w, ids, i) ==> after[i] == if w.at(Start(i)) == Completes then Running else Degraded)
         && (!WasStopped(w, ids, i) && before[i] != Starting ==> after[i] == before[i])
         && (!WasStopped(w, ids, i) && before[i] == Starting ==>
               after[i] == if w.at(Drain) == Fails then Starting else Idle)
  }

  lemma StatusesMean(w: World, ids: seq<nat>, status: map<nat, Status>)
    requires w.at(Drain) != Cancelled
    ensures StatusesRight(w, ids, status, StatusAfterRefusal(w, ids, status))
  {
    hide WasStopped;
    forall i | i in status
      ensures var after := StatusAfterRefusal(w, ids, status);
              && i in after
              && (WasStopped(w, ids, i) ==> after[i] == if w.at(Start(i)) == Completes then Running else Degraded)
              && (!WasStopped(w, ids, i) && status[i] != Starting ==> after[i] == status[i])
              && (!WasStopped(w, ids, i) && status[i] == Starting ==>
                    after[i] == if w.at(Drain) == Fails then Starting else Idle)
    {
      StatusMeans(w, ids, status, i);
    }
    assert StatusAfterRefusal(w, ids, status).Keys == status.Keys;
  }

  /** Some wait is cancelled, or a cancellation arrives while files move. */
  ghost predicate Cancels(w: World) {
    w.cancelsInActivate > 0 || w.cancelsInRollback > 0 || exists p: Point :: w.at(p) == Cancelled
  }

  /** Some wait failed that nothing answers: a restore that it unwinds is neither refused nor rolled back. */
  ghost predicate FailsUnanswered(w: World) {
    exists p | p in {EnterAdmission, ReadIntent, EnterToSeal, EnterToRollBack, StartPrevious, ResumePrevious, ReopenIntent} ::
      w.at(p) == Fails
  }

  lemma UnwoundBy(w: World, p: Point)
    ensures w.at(p) == Cancelled ==> Cancels(w)
    ensures w.at(p) == Fails && p == EnterAdmission ==> FailsUnanswered(w)
  {
  }

  class Host {
    const lifecycle: seq<nat>
    var disk: Disk
    var sealed: bool
    var admissionSealed: bool
    var held: bool
    var designated: Designated
    var scheduler: bool
    var status: map<nat, Status>
    /** The previous state's pause intent: the operator's own pauses and every external client's hold. */
    var pause: int
    /** The pause intent the safety backup holds. */
    var safety: Option<int>
    var sessions: set<nat>
    /** What could be seen when the restore began, and since. */
    ghost var began: Moment
    ghost var trace: seq<Moment>

    ghost function Now(): Moment
      reads this
    {
      Moment(disk, sealed, admissionSealed, held, designated)
    }

    /** Records what an observer may see now; `before` is what the last one could. */
    ghost method Note(before: Moment)
      requires Orderly(trace, began, before) && Sound(Now()) && (before.sealed ==> sealed) && NextMoment(before, Now())
      modifies this`trace
      ensures Orderly(trace, began, Now()) && trace == old(trace) + [Now()]
    {
      OrderlyMore(trace, began, before, Now());
      trace := trace + [Now()];
    }

    ghost method Begin()
      requires Sound(Now())
      modifies this`began, this`trace
      ensures began == Now() && Orderly(trace, began, Now())
      ensures Gapless(trace, began, Now()) && AllSound(trace) && SealsKept(trace)
    {
      began, trace := Now(), [Now()];
    }

    // ---- stopping and putting back ----------------------------------------------------------------

    /** Stops the integrations in reverse order, up to the first that does not stop. */
    method StopInReverse(w: World) returns (k: nat)
      modifies this`status
      ensures k == |lifecycle| - StopCount(w, lifecycle)
      ensures status == Halted(old(status), StoppedOf(w, lifecycle))
      ensures k > 0 ==> w.at(Stop(lifecycle[k - 1])) != Completes
    {
      hide Halted;
      ghost var begun := status;
      k := |lifecycle|;
      HaltedOne(begun, 0);
      assert Elements(lifecycle[k..]) == {};
      assert lifecycle[..k] == lifecycle;
      while k > 0 && w.at(Stop(lifecycle[k - 1])) == Completes
        invariant k <= |lifecycle|
        invariant status == Halted(begun, Elements(lifecycle[k..]))
        invariant StopCount(w, lifecycle) == |lifecycle| - k + StopCount(w, lifecycle[..k])
      {
        k := k - 1;
        assert lifecycle[..k + 1][..k] == lifecycle[..k];
        assert lifecycle[k..] == [lifecycle[k]] + lifecycle[k + 1..];
        HaltedMore(begun, Elements(lifecycle[k + 1..]), lifecycle[k]);
        HaltedOne(status, lifecycle[k]);
        assert Elements(lifecycle[k..]) == Elements(lifecycle[k + 1..]) + {lifecycle[k]};
        status := map i | i in status :: if i == lifecycle[k] then Idle else status[i];
      }
    }

    /** Ends a startup still in flight, then stops the integrations in reverse order. */
    method StopIntegrations(w: World) returns (r: StopResult)
      modifies this`status
      ensures w.at(StopStartup) == Cancelled || w.at(Checkpoint) == Cancelled ==>
                r == StopCancelled && status == StartupEnded(old(status))
      ensures status.Keys == old(status).Keys
      ensures forall i | i in status ::
                status[i] == if old(status)[i] == Starting then Idle
                             else if w.at(StopStartup) != Cancelled && w.at(Checkpoint) != Cancelled && i in StoppedOf(w, lifecycle)
                             then Idle else old(status)[i]
      ensures w.at(StopStartup) != Cancelled && w.at(Checkpoint) != Cancelled ==>
                && status == Halted(StartupEnded(old(status)), StoppedOf(w, lifecycle))
                && (r.AllStopped? <==> StopCount(w, lifecycle) == |lifecycle|)
                && (r.StopFailed? ==> r.stopped == StoppedOf(w, lifecycle))
                && (r.StopCancelled? ==> Cancels(w))
                && (StopCount(w, lifecycle) < |lifecycle| ==>
                      (r.StopFailed? <==> w.at(Stop(lifecycle[|lifecycle| - 1 - StopCount(w, lifecycle)])) == Fails))
    {
      status := StartupEnded(status);
      if w.at(StopStartup) == Cancelled || w.at(Checkpoint) == Cancelled {
        return StopCancelled;
      }
      var k := StopInReverse(w);
      if k == 0 {
        return AllStopped;
      }
      return if w.at(Stop(lifecycle[k - 1])) == Fails then StopFailed(Elements(lifecycle[k..])) else StopCancelled;
    }

    /** Starts exactly the integrations of `only`, each on its own. */
    method StartIntegrations(w: World, only: set<nat>)
      modifies this`status
      ensures status == Started(w, old(status), only)
      ensures status.Keys == old(status).Keys
      ensures forall i | i in status ::
                status[i] == if i !in only then old(status)[i] else if w.at(Start(i)) == Completes then Running else Degraded
    {
      ghost var before := status;
      var left := only;
      assert status == Started(w, before, {});
      while left != {}
        invariant left <= only && status == Started(w, before, only - left)
        decreases left
      {
        var i :| i in left;
        left := left - {i};
        if i in status {
          status := status[i := if w.at(Start(i)) == Completes then Running else Degraded];
        }
        assert status == Started(w, before, only - left);
      }
      assert only - left == only;
    }

    /** Quiesces the current application under its held admission. */
    method Quiesce(w: World) returns (r: Quiesced, intent: int, ran: bool)
      modifies this`pause, this`scheduler, this`status
      ensures intent == old(pause) && ran == old(scheduler)
      ensures r.Quiet? <==> Quiesces(w) && Stops(w) && StopCount(w, lifecycle) == |lifecycle|
      ensures r.Refuse? <==> RefusedStopping(w, lifecycle)
      ensures r.Refuse? ==>
                && !scheduler && pause == GLOBALLY_PAUSED
                && r.stopped == Reopening(w, lifecycle)
                && status == (if w.at(Drain) == Fails then old(status)
                              else Halted(StartupEnded(old(status)), StoppedOf(w, lifecycle)))
      ensures r.Quiet? ==>
                !scheduler && pause == GLOBALLY_PAUSED && status == Halted(StartupEnded(old(status)), Elements(lifecycle))
      ensures r.Unwound? ==> r.outcome in {Interrupted, Broken}
      ensures r.Unwound? && r.outcome.Broken? ==> w.at(ReadIntent) == Fails
      ensures r.Unwound? && r.outcome.Interrupted? ==> Cancels(w)
      requires w.at(Validate) == Completes && w.at(EnterAdmission) == Completes
    {
      intent, ran := pause, scheduler;
      if w.at(ReadIntent) != Completes {
        return Unwound(Unwinding(w.at(ReadIntent))), intent, ran;
      }
      scheduler := false;
      if w.at(StopScheduler) == Cancelled {
        return Unwound(Interrupted), intent, ran;
      }
      pause := GLOBALLY_PAUSED;
      if w.at(Drain) == Cancelled {
        return Unwound(Interrupted), intent, ran;
      } else if w.at(Drain) == Fails {
        return Refuse({}), intent, ran;
      }
      var stop := StopIntegrations(w);
      match stop {
        case AllStopped =>
          assert lifecycle[0..] == lifecycle;
          return Quiet, intent, ran;
        case StopFailed(stopped) => return Refuse(stopped), intent, ran;
        case StopCancelled => return Unwound(Interrupted), intent, ran;
      }
    }

    // ---- the swap ---------------------------------------------------------------------------------

    /** Runs one swap step to its end, whatever cancellations arrive meanwhile: a failure of the step wins over
        them, and files are never left moving. */
    method ToCompletion(result: Swap, cancels: nat, moved: Disk, back: Disk) returns (raised: bool, cancelled: bool)
      requires held && designated == Current && Orderly(trace, began, Now())
      modifies this`disk, this`trace
      ensures raised <==> result != Moved
      ensures !raised ==> (cancelled <==> cancels > 0)
      ensures disk == match result case Moved => moved case PutBack => back case Stuck => Mixed
      ensures Orderly(trace, began, Now())
    {
      ghost var before := Now();
      disk := Mixed;
      Note(before);
      var left := cancels;
      cancelled := false;
      while left > 0
        invariant 0 <= left <= cancels && (cancelled <==> left < cancels)
      {
        left := left - 1;
        cancelled := true;
      }
      before := Now();
      disk := match result case Moved => moved case PutBack => back case Stuck => Mixed;
      Note(before);
      raised := result != Moved;
    }

    method Seal()
      requires held && designated == Current && Orderly(trace, began, Now())
      modifies this`sealed, this`admissionSealed, this`trace
      ensures sealed && admissionSealed && Orderly(trace, began, Now())
    {
      ghost var before := Now();
      sealed, admissionSealed := true, true;
      Note(before);
    }

    /** Prepares the swap and makes it, under database maintenance. */
    method Swap(w: World, intent: int) returns (r: Swapped)
      requires disk == Old && !sealed && !admissionSealed && held && designated == Current && Orderly(trace, began, Now())
      modifies this`disk, this`sealed, this`admissionSealed, this`pause, this`safety, this`trace
      ensures Orderly(trace, began, Now())
      ensures r.InPlace? <==> Preparation(w) == Completes && w.activate == Moved && w.cancelsInActivate == 0
      ensures r.InPlace? ==> disk == NewUncommitted && !sealed && !admissionSealed && pause == intent && safety == Some(intent)
      ensures r.RefuseSwap? <==> Preparation(w) == Fails || (Preparation(w) == Completes && w.activate == PutBack)
      ensures r.RefuseSwap? ==> disk == Old && !sealed && !admissionSealed
      ensures r == Ended(Unresolved) <==> Preparation(w) == Completes && w.activate == Stuck
      ensures r.Ended? ==> r.outcome in {Unresolved, Interrupted}
      ensures r.Ended? ==> if Preparation(w) == Cancelled then disk == Old && !sealed else sealed && disk != Old
      ensures safety == old(safety) || safety == Some(intent)
      ensures r == Ended(Interrupted) ==> Cancels(w)
    {
      if w.at(EnterMaintenance) != Completes {
        return if w.at(EnterMaintenance) == Cancelled then Ended(Interrupted) else RefuseSwap;
      }
      if w.at(RecordIntent) != Completes {
        return if w.at(RecordIntent) == Cancelled then Ended(Interrupted) else RefuseSwap;
      }
      pause := intent;
      if w.at(CreateSafety) != Completes {
        return if w.at(CreateSafety) == Cancelled then Ended(Interrupted) else RefuseSwap;
      }
      safety := Some(pause);
      if w.at(Stage) != Completes {
        return if w.at(Stage) == Cancelled then Ended(Interrupted) else RefuseSwap;
      }
      if w.at(CheckStaged) != Completes {
        return if w.at(CheckStaged) == Cancelled then Ended(Interrupted) else RefuseSwap;
      }
      if w.at(CheckLive) != Completes {
        return if w.at(CheckLive) == Cancelled then Ended(Interrupted) else RefuseSwap;
      }
      var raised, cancelled := ToCompletion(w.activate, w.cancelsInActivate, NewUncommitted, Old);
      if raised {
        if w.activate.Stuck? {
          Seal();
          return Ended(Unresolved);
        }
        return RefuseSwap;
      }
      if cancelled {
        Seal();
        return Ended(Interrupted);
      }
      return InPlace;
    }

    // ---- the restored state, or the previous one --------------------------------------------------

    /** Starts the restored state and commits to it, or puts the previous one back; `None` goes on to report. */
    method Launch(w: World, intent: int) returns (r: Option<Outcome>)
      requires disk == NewUncommitted && !sealed && !admissionSealed && held && designated == Current
      requires !scheduler && pause == intent && Orderly(trace, began, Now())
      modifies this`disk, this`sealed, this`admissionSealed, this`designated, this`scheduler, this`pause, this`trace
      ensures Orderly(trace, began, Now()) && admissionSealed == sealed
      ensures r.None? <==> Done(w, StartRestored)
      ensures r.None? ==> disk == NewCommitted && designated == Restored && scheduler && !sealed
      ensures r.Some? ==> r.value in {PreviousBack, Unresolved, Interrupted, Broken}
      ensures r == Some(Unresolved) <==>
                w.at(StartRestored) == Fails && Done(w, EnterToRollBack) && w.rollback != Moved
      ensures r == Some(PreviousBack) <==>
                && w.at(StartRestored) == Fails && Done(w, EnterToRollBack) && w.rollback == Moved && w.cancelsInRollback == 0
                && Done(w, StartPrevious) && Done(w, ResumePrevious) && w.at(JournalFailure) != Cancelled
      ensures r == Some(PreviousBack) ==> designated == Reinstated && disk == Old && scheduler && pause == intent
      ensures r.Some? ==>
                match w.at(StartRestored)
                case Cancelled => disk == NewUncommitted && designated == Current && (sealed <==> Done(w, EnterToSeal))
                case _ =>
                  if !Done(w, EnterToRollBack) then disk == NewUncommitted && !sealed && designated == Current
                  else if w.rollback == Moved then disk == Old && !sealed && designated in {Current, Reinstated}
                  else sealed && designated == Current && disk in {NewUncommitted, Mixed}
      ensures r == Some(Interrupted) ==> Cancels(w)
      ensures r == Some(Broken) ==> FailsUnanswered(w)
    {
      if w.at(StartRestored) == Cancelled {
        if w.at(EnterToSeal) != Completes {
          return Some(Unwinding(w.at(EnterToSeal)));
        }
        Seal();
        return Some(Interrupted);
      }
      if w.at(StartRestored) == Fails {
        if w.at(EnterToRollBack) != Completes {
          return Some(Unwinding(w.at(EnterToRollBack)));
        }
        var raised, cancelled := ToCompletion(w.rollback, w.cancelsInRollback, Old, NewUncommitted);
        if raised {
          Seal();
          return Some(Unresolved);
        }
        if cancelled {
          return Some(Interrupted);
        }
        r := Resume(w, intent);
        return;
      }
      scheduler := true;
      ghost var before := Now();
      disk := NewCommitted;
      Note(before);
      before := Now();
      designated := Restored;
      Note(before);
      return None;
    }

    /** A fresh application over the previous state, once it is back on disk. */
    method Resume(w: World, intent: int) returns (r: Option<Outcome>)
      requires disk == Old && held && designated == Current && !sealed && !scheduler && Orderly(trace, began, Now())
      modifies this`designated, this`scheduler, this`pause, this`trace
      ensures Orderly(trace, began, Now()) && r.Some? && r.value in {PreviousBack, Interrupted, Broken}
      ensures designated in {Current, Reinstated}
      ensures r == Some(PreviousBack) <==>
                Done(w, StartPrevious) && Done(w, ResumePrevious) && w.at(JournalFailure) != Cancelled
      ensures r == Some(PreviousBack) ==> designated == Reinstated && scheduler && pause == intent
      ensures r == Some(Interrupted) ==> Cancels(w)
      ensures r == Some(Broken) ==> FailsUnanswered(w)
    {
      if w.at(StartPrevious) != Completes {
        return Some(Unwinding(w.at(StartPrevious)));
      }
      scheduler := true;
      if w.at(ResumePrevious) != Completes {
        return Some(Unwinding(w.at(ResumePrevious)));
      }
      pause := intent;
      ghost var before := Now();
      designated := Reinstated;
      Note(before);
      return Some(if w.at(JournalFailure) == Cancelled then Interrupted else PreviousBack);
    }

    /** Puts back what a refused restore changed on the application it never replaced. */
    method Reopen(w: World, stopped: set<nat>, intent: int, ran: bool, code: int) returns (outcome: Outcome)
      requires !scheduler
      modifies this`status, this`pause, this`scheduler
      ensures outcome.NotReplaced? <==> PutsBack(w, stopped)
      ensures outcome.NotReplaced? ==>
                outcome.code == code && status == Started(w, old(status), stopped) && pause == intent && scheduler == ran
      ensures !outcome.NotReplaced? ==> outcome in {Interrupted, Broken}
      ensures outcome.Interrupted? ==> Cancels(w)
      ensures outcome.Broken? ==> FailsUnanswered(w)
    {
      if stopped != {} {
        if w.at(ReopenIntegrations) == Cancelled {
          return Interrupted;
        }
        StartIntegrations(w, stopped);
      }
      if w.at(ReopenIntent) != Completes {
        return Unwinding(w.at(ReopenIntent));
      }
      pause := intent;
      if ran {
        scheduler := true;
      }
      return if w.at(JournalRefusal) == Cancelled then Interrupted else NotReplaced(code);
    }

    /** Holds the current application's admission. */
    method Enter()
      requires !held && disk == Old && designated == Current && Orderly(trace, began, Now())
      modifies this`held, this`trace
      ensures held && Orderly(trace, began, Now())
    {
      ghost var before := Now();
      held := true;
      Note(before);
    }

    /** Releases the replaced application's admission. */
    method Leave()
      requires held && Orderly(trace, began, Now())
      modifies this`held, this`trace
      ensures !held && Gapless(trace, began, Now()) && SealsKept(trace) && (AllSound(trace) <==> Sound(Now()))
    {
      held := false;
      if Sound(Now()) {
        Note(old(Now()));
      } else {
        GaplessMore(trace, began, old(Now()), Now());
        trace := trace + [Now()];
        assert Now() in trace;
      }
    }

    // ---- the whole restore ------------------------------------------------------------------------

    /** The part of a restore that holds the current application's admission. */
    method Replace(w: World, intent: int, ran: bool) returns (r: Held)
      requires disk == Old && !sealed && !admissionSealed && held && designated == Current && Orderly(trace, began, Now())
      requires Done(w, Validate) && Done(w, EnterAdmission) && intent == pause && ran == scheduler && safety.None?
      modifies this`disk, this`sealed, this`admissionSealed, this`held, this`designated, this`scheduler, this`status,
               this`pause, this`safety, this`trace
      ensures !held && Gapless(trace, began, Now()) && SealsKept(trace)
      ensures AllSound(trace) <==> !Exposes(w, lifecycle)
      ensures safety.Some? ==> safety.value == intent
      ensures r.Proceed? || r == Over(PreviousBack) ==> safety == Some(intent)
      ensures r.Proceed? <==> Swaps(w, lifecycle) && Done(w, StartRestored)
      ensures r.Proceed? ==> disk == NewCommitted && designated == Restored && scheduler && !sealed
      ensures r.Refusal? <==> Refused(w, lifecycle)
      ensures r.Refusal? ==>
                && disk == Old && designated == Current && !sealed && !admissionSealed && !scheduler
                && r.stopped == Reopening(w, lifecycle) && r.code == (if RefusedStopping(w, lifecycle) then 409 else 400)
                && status == (if w.at(Drain) == Fails then old(status)
                              else Halted(StartupEnded(old(status)), StoppedOf(w, lifecycle)))
      ensures r == Over(Unresolved) <==>
                (Prepares(w, lifecycle) && w.activate == Stuck) || (RollsBack(w, lifecycle) && w.rollback != Moved)
      ensures r == Over(PreviousBack) <==>
                && RollsBack(w, lifecycle) && w.rollback == Moved && w.cancelsInRollback == 0
                && Done(w, StartPrevious) && Done(w, ResumePrevious) && w.at(JournalFailure) != Cancelled
      ensures r == Over(PreviousBack) ==> disk == Old && designated == Reinstated && !sealed && scheduler && pause == intent
      ensures r == Over(Unresolved) ==> sealed
      ensures r.Over? ==>
                && r.outcome in {PreviousBack, Unresolved, Interrupted, Broken} && designated != Restored
                && (sealed || (disk == Old && designated != Restored) || Exposes(w, lifecycle))
      ensures r == Over(Interrupted) ==> Cancels(w)
      ensures r == Over(Broken) ==> FailsUnanswered(w)
    {
      hide AllSound, SealsKept, Gapless, NextMoment, Orderly;
      hide StopCount;
      hide Halted;
      hide StartupEnded;
      var quiesced, _, _ := Quiesce(w);
      if !quiesced.Quiet? {
        Leave();
        return if quiesced.Refuse? then Refusal(quiesced.stopped, 409) else Over(quiesced.outcome);
      }
      assert lifecycle[0..] == lifecycle;
      var swapped := Swap(w, intent);
      if !swapped.InPlace? {
        Leave();
        return if swapped.RefuseSwap? then Refusal(StoppedOf(w, lifecycle), 400) else Over(swapped.outcome);
      }
      var end := Launch(w, intent);
      Leave();
      return if end.Some? then Over(end.value) else Proceed;
    }

    /** One restore: how it ends, and what it leaves, for every fate of every wait. */
    method RestoreBackup(w: World) returns (outcome: Outcome)
      requires !held && designated == Current && safety.None?
      requires !sealed ==> disk == Old && !admissionSealed
      modifies this
      // How it ends.
      ensures outcome.Rejected? <==> !old(sealed) && w.at(Validate) == Fails
      ensures outcome.Succeeded? <==>
                !old(sealed) && Swaps(w, lifecycle) && Done(w, StartRestored) && w.at(JournalSuccess) != Cancelled
      ensures outcome.NotReplaced? <==> !old(sealed) && Refused(w, lifecycle) && PutsBack(w, Reopening(w, lifecycle))
      ensures outcome.NotReplaced? <==>
                && !old(sealed) && Refused(w, lifecycle)
                && (Reopening(w, lifecycle) == {} || w.at(ReopenIntegrations) != Cancelled)
                && w.at(ReopenIntent) == Completes && w.at(JournalRefusal) != Cancelled
      // An interruption is a cancellation, and anything else that unwinds it is a failure.
      ensures outcome.Interrupted? ==> Cancels(w)
      ensures outcome.Broken? ==> FailsUnanswered(w)
      ensures outcome.NotReplaced? ==> outcome.code == if RefusedStopping(w, lifecycle) then 409 else 400
      ensures outcome.PreviousBack? <==>
                && !old(sealed) && RollsBack(w, lifecycle) && w.rollback == Moved && w.cancelsInRollback == 0
                && Done(w, StartPrevious) && Done(w, ResumePrevious) && w.at(JournalFailure) != Cancelled
      ensures outcome.Unresolved? <==>
                || old(sealed)
                || (Prepares(w, lifecycle) && w.activate == Stuck)
                || (RollsBack(w, lifecycle) && w.rollback != Moved)
      // What it leaves.
      ensures old(sealed) || outcome.Rejected? ==>
                && disk == old(disk) && sealed == old(sealed) && admissionSealed == old(admissionSealed) && designated == Current
                && scheduler == old(scheduler) && status == old(status) && pause == old(pause)
      ensures outcome.Succeeded? ==> disk == NewCommitted && designated == Restored && scheduler && !sealed
      ensures outcome.NotReplaced? ==>
                && disk == Old && designated == Current && !sealed && !admissionSealed
                && scheduler == old(scheduler) && pause == old(pause)
                && status == StatusAfterRefusal(w, lifecycle, old(status))
      // Integration by integration: what was stopped is running again exactly if its start completes.
      ensures outcome.NotReplaced? ==> StatusesRight(w, lifecycle, old(status), status)
      ensures outcome.PreviousBack? ==>
                disk == Old && designated == Reinstated && !sealed && scheduler && pause == old(pause)
      ensures outcome.Unresolved? ==> sealed
      ensures outcome.Interrupted? || outcome.Broken? ==>
                || sealed || (disk == Old && designated != Restored)
                || (disk == NewCommitted && designated == Restored && w.at(JournalSuccess) == Cancelled)
                || Exposes(w, lifecycle)
      ensures safety.Some? ==> safety.value == old(pause)
      ensures outcome.Succeeded? || outcome.PreviousBack? ==> safety == Some(old(pause))
      ensures sessions == if old(sealed) || designated != Restored then old(sessions) else {}
      // What anybody could see on the way.
      ensures !held && Gapless(trace, old(Now()), Now()) && SealsKept(trace)
      ensures AllSound(trace) <==> old(sealed) || !Exposes(w, lifecycle)
    {
      hide AllSound, SealsKept, Gapless, NextMoment, Orderly;
      hide StopCount, Started, Halted, StartupEnded, StatusAfterRefusal, Reopening;
      hide Prepares, Swaps, Exposes, RollsBack, Refused, RefusedStopping;
      hide StatusesRight, Cancels, FailsUnanswered;
      UnwoundBy(w, Validate);
      UnwoundBy(w, EnterAdmission);
      UnwoundBy(w, JournalSuccess);
      Begin();
      if sealed {
        return Unresolved;
      }
      if !Done(w, Validate) || !Done(w, EnterAdmission) {
        NotBegun(w, lifecycle);
        return if w.at(Validate) == Fails then Rejected
               else if w.at(Validate) == Cancelled then Interrupted else Unwinding(w.at(EnterAdmission));
      }
      var intent, ran := pause, scheduler;
      Enter();
      var replaced := Replace(w, intent, ran);
      match replaced {
        case Over(end) =>
          outcome := end;
        case Refusal(stopped, code) =>
          outcome := Reopen(w, stopped, intent, ran, code);
          PutBackAs(w, lifecycle, old(status));
          StatusesMean(w, lifecycle, old(status));
        case Proceed =>
          sessions := {};
          outcome := if w.at(JournalSuccess) == Cancelled then Interrupted else Succeeded;
      }
    }
  }

  // ---- corollaries --------------------------------------------------------------------------------

  /** An integration a refusal leaves idle is exactly one that was still starting and that the stop did not reach:
      its startup was cancelled, and only what was stopped is started again. */
  lemma LeftIdle(w: World, ids: seq<nat>, status: map<nat, Status>, i: nat)
    requires Refused(w, ids)
    requires i in ids && i in status && status[i] != Idle
    ensures var after := StatusAfterRefusal(w, ids, status);
            && i in after
            && (after[i] == Idle <==> w.at(Drain) == Completes && status[i] == Starting && !WasStopped(w, ids, i))
            && (!WasStopped(w, ids, i) && status[i] != Starting ==> after[i] == status[i])
  {
    hide WasStopped, StatusAfterRefusal, StopCount;
    StatusMeans(w, ids, status, i);
  }

  /** Refused while preparing the swap, every integration is running again where its start completes, and degraded where it
      does not. */
  lemma PreparingRestartsAll(w: World, ids: seq<nat>, status: map<nat, Status>, i: nat)
    requires RefusedPreparing(w, ids) && i in ids && i in status
    ensures StatusAfterRefusal(w, ids, status)[i] == if w.at(Start(i)) == Completes then Running else Degraded
  {
    hide StatusAfterRefusal;
    StatusMeans(w, ids, status, i);
    StopCountMeans(w, ids);
    var k :| 0 <= k < |ids| && ids[k] == i;
    assert WasStopped(w, ids, i);
  }

  /** Where every start completes, a refusal leaves every integration that ran running. */
  lemma RunningAgain(w: World, ids: seq<nat>, status: map<nat, Status>, i: nat)
    requires Refused(w, ids) && i in status && status[i] == Running && forall x :: w.at(Start(x)) == Completes
    ensures StatusAfterRefusal(w, ids, status)[i] == Running
  {
    hide WasStopped, StatusAfterRefusal, StopCount;
    StatusMeans(w, ids, status, i);
  }

  /** A world where one integration never stops, while a second one is still starting. */
  function StuckStop(): World {
    World((p: Point) => if p == Stop(1) then Fails else Completes, Moved, 0, Moved, 0)
  }

  /** The refusal does not put everything back: the integration whose startup was in flight stays idle. */
  lemma StartupLost()
    ensures RefusedStopping(StuckStop(), [0, 1])
    ensures StatusAfterRefusal(StuckStop(), [0, 1], map[0 := Starting, 1 := Running]) == map[0 := Idle, 1 := Running]
  {
    assert StopCount(StuckStop(), [0, 1]) == 0;
    assert StoppedOf(StuckStop(), [0, 1]) == {};
  }

  /** The restored application fails to start, and the one cancellation arrives while the restore waits to enter
      the maintenance it would roll back under. */
  function CancelledBeforeRollback(): World {
    World((p: Point) => match p case StartRestored => Fails case EnterToRollBack => Cancelled case _ => Completes,
          Moved, 0, Moved, 0)
  }

  /** One cancellation is enough to leave the replaced application serving the swapped files. */
  lemma OneCancellationExposes(ids: seq<nat>)
    ensures Exposes(CancelledBeforeRollback(), ids)
  {
    AllStop(CancelledBeforeRollback(), ids);
  }

  lemma {:induction false} AllStop(w: World, ids: seq<nat>)
    requires forall i :: w.at(Stop(i)) == Completes
    ensures StopCount(w, ids) == |ids|
  {
    if ids != [] {
      AllStop(w, ids[..|ids| - 1]);
    }
  }
}
