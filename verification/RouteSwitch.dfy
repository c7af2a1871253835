/** One operator choice of a provider for a transfer of several roots: best effort, every root reported, and nothing
    committed ever reported as nothing. */
module RouteSwitch {
  import opened Support

  datatype Reason =
    NotAttempted | ChangedMeanwhile | Discard | Category(code: int) | Gone | Failed | Unavailable(code: int) | NoReason

  /** What a switch command comes to: it commits; it refuses; or something else stops it. A refusal, and whatever else
      stops it, may come after a durable change all the same: writers are detached before the route is replaced, and a
      storage fault after the command's own commit is answered as a refusal. */
  datatype Response = Commits | Refuses(reason: Reason, durable: bool) | Breaks(gone: bool, durable: bool)
  /** The response to the command issued at each position. */
  type World = nat -> Response

  /** A file to move through an equivalent source: selected now, or as a pending choice through another root. */
  datatype Step = Step(artifact: int, alternate: bool)
  datatype Standing = AlreadyThere | Eligible | NotEligible(reason: Reason)
  /** One participating root: `plan` is absent when its own route is switched. */
  datatype Root = Root(id: int, current: int, standing: Standing, plan: Option<seq<Step>>)

  datatype FileResult = FileSwitched | FilePending | FileRefused(reason: Reason)
  datatype FileOutcome = FileOutcome(artifact: int, result: FileResult, changed: bool)
  datatype RootResult = Switched | Pending | AlreadySelected | Ineligible(reason: Reason) | Refused(reason: Reason)
  datatype RootOutcome = RootOutcome(root: int, result: RootResult, files: seq<FileOutcome>)

  datatype FilesReport = Files(outcomes: seq<FileOutcome>, stopped: Option<Reason>) | FilesRaise
  datatype Verdict = Unchanged | Complete | AwaitsProvider | Partial
  datatype Report = Report(verdict: Verdict, roots: seq<RootOutcome>) | Raises

  // ---- what the commands of a stretch did ---------------------------------------------------------

  /** The command changed something durable. */
  predicate Lasting(r: Response) {
    r.Commits? || r.durable
  }

  /** It did so, and did not answer that it did. */
  predicate Hides(r: Response) {
    !r.Commits? && r.durable
  }

  /** Some command issued from `a` to `b` committed. */
  predicate Committed(w: World, a: nat, b: nat) {
    exists i | a <= i < b :: w(i).Commits?
  }

  /** Something durable changed, reported or not. */
  predicate Durable(w: World, a: nat, b: nat) {
    exists i | a <= i < b :: Lasting(w(i))
  }

  predicate Hidden(w: World, a: nat, b: nat) {
    exists i | a <= i < b :: Hides(w(i))
  }

  /** Some refusal came after a durable change. */
  predicate HiddenRefusal(w: World, a: nat, b: nat) {
    exists i | a <= i < b :: w(i).Refuses? && w(i).durable
  }

  predicate Broken(w: World, a: nat, b: nat) {
    exists i | a <= i < b :: w(i).Breaks?
  }

  /** Only the last command may break. */
  predicate StopsAtBreak(w: World, a: nat, b: nat) {
    forall i | a <= i < b :: w(i).Breaks? ==> i == b - 1
  }

  // ---- what was reported --------------------------------------------------------------------------

  predicate FilesChanged(files: seq<FileOutcome>) {
    exists f | f in files :: f.changed
  }

  predicate RootChanged(o: RootOutcome) {
    o.result.Switched? || o.result.Pending? || FilesChanged(o.files)
  }

  predicate Reported(outcomes: seq<RootOutcome>) {
    exists o | o in outcomes :: RootChanged(o)
  }

  /** A file's outcome says whether anything changed for it. */
  ghost predicate FilesTruthful(plan: seq<Step>, files: seq<FileOutcome>) {
    && |files| == |plan|
    && forall i | 0 <= i < |files| ::
         && files[i].artifact == plan[i].artifact
         && (files[i].changed <==> !files[i].result.FileRefused?)
         && (files[i].result.FilePending? ==> plan[i].alternate)
         && (files[i].result.FileSwitched? ==> !plan[i].alternate)
  }

  /** A root's outcome means what it says: it counts as switched or pending only when every file it moves is. */
  ghost predicate RootTruthful(root: Root, o: RootOutcome) {
    && o.root == root.id
    && (o.result.AlreadySelected? ==> root.standing.AlreadyThere?)
    && (o.result.Ineligible? ==> root.standing == NotEligible(o.result.reason))
    && (o.result.Switched? || o.result.Pending? ==> root.standing.Eligible?)
    && (root.plan.None? ==> !o.result.Pending?)
    && (o.files != [] ==> root.plan.Some? && FilesTruthful(root.plan.value, o.files))
    && (root.plan.Some? && o.result.Switched? ==>
          o.files != [] && forall f | f in o.files :: f.result.FileSwitched?)
    && (o.result.Pending? ==>
          o.files != [] && (exists f | f in o.files :: f.result.FilePending?)
          && forall f | f in o.files :: !f.result.FileRefused?)
  }

  lemma FilesMore(files: seq<FileOutcome>, f: FileOutcome)
    ensures FilesChanged(files + [f]) <==> FilesChanged(files) || f.changed
  {
    assert forall x :: x in files + [f] <==> x in files || x == f;
  }

  lemma ReportedMore(outcomes: seq<RootOutcome>, o: RootOutcome)
    ensures Reported(outcomes + [o]) <==> Reported(outcomes) || RootChanged(o)
  {
    assert forall x :: x in outcomes + [o] <==> x in outcomes || x == o;
  }


  lemma NothingYet(w: World, a: nat)
    ensures !Committed(w, a, a) && !FilesChanged([])
  {
  }

  lemma NextCommitted(w: World, a: nat, b: nat)
    requires a <= b
    ensures Committed(w, a, b + 1) <==> Committed(w, a, b) || w(b).Commits?
  {
  }

  lemma Stretches(w: World, a: nat, m: nat, b: nat)
    requires a <= m <= b
    ensures Committed(w, a, b) <==> Committed(w, a, m) || Committed(w, m, b)
    ensures HiddenRefusal(w, a, b) <==> HiddenRefusal(w, a, m) || HiddenRefusal(w, m, b)
    ensures Broken(w, a, b) <==> Broken(w, a, m) || Broken(w, m, b)
    ensures StopsAtBreak(w, m, b) && !Broken(w, a, m) ==> StopsAtBreak(w, a, b)
  {
  }

  // ---- what is reported, as a function of what the commands come to --------------------------------

  function Why(r: Response): Reason
    requires r.Breaks?
  {
    if r.gone then Gone else Failed
  }

  /** What one file is told of its command. */
  function Told(step: Step, r: Response): FileOutcome {
    match r
    case Commits => FileOutcome(step.artifact, if step.alternate then FilePending else FileSwitched, true)
    case Refuses(reason, _) => FileOutcome(step.artifact, FileRefused(reason), false)
    case Breaks(_, _) => FileOutcome(step.artifact, FileRefused(Why(r)), false)
  }

  /** How many of the `n` commands from `a` come before one that breaks. */
  function UntilBreak(w: World, a: nat, n: nat): (r: nat)
    ensures r <= n && !Broken(w, a, a + r) && (r < n ==> w(a + r).Breaks?)
    decreases n
  {
    if n == 0 || w(a).Breaks? then 0 else 1 + UntilBreak(w, a + 1, n - 1)
  }

  /** The first command that breaks is the one they stop at. */
  lemma BreaksThere(w: World, a: nat, n: nat, k: nat)
    requires k <= UntilBreak(w, a, n) && k < n
    ensures w(a + k).Breaks? <==> k == UntilBreak(w, a, n)
  {
  }

  /** Where a participant's commands end: one for each file, up to the one that breaks. */
  function FilesEnd(w: World, a: nat, plan: seq<Step>): nat {
    var n := UntilBreak(w, a, |plan|);
    if n < |plan| then a + n + 1 else a + n
  }

  /** File by file, where the command of file `n` breaks. */
  function ToldAll(w: World, a: nat, plan: seq<Step>, n: nat): (files: seq<FileOutcome>)
    ensures |files| == |plan|
    ensures forall i | 0 <= i < |plan| ::
              files[i] == Told(plan[i], if i <= n then w(a + i) else Refuses(NotAttempted, false))
  {
    seq(|plan|, i requires 0 <= i < |plan| =>
      Told(plan[i], if i <= n then w(a + i) else Refuses(NotAttempted, false)))
  }

  /** File by file: the outcome of its own command, and not attempted after a break; a break before any commit is
      raised. */
  function FilesReported(w: World, a: nat, plan: seq<Step>): FilesReport {
    var n := UntilBreak(w, a, |plan|);
    if n < |plan| && !Committed(w, a, a + n) then FilesRaise
    else Files(ToldAll(w, a, plan, n), if n < |plan| then Some(Why(w(a + n))) else None)
  }

  /** A root moved file by file counts as switched or pending only when no file was refused; else the first refusal's
      reason is its own. */
  function Overall(files: seq<FileOutcome>, stopped: Option<Reason>): RootResult {
    if files != [] && FirstRefusal(files).None?
    then (if exists f | f in files :: f.result.FilePending? then Pending else Switched)
    else Refused(FirstRefusal(files).GetOr(stopped.GetOr(NoReason)))
  }

  function FirstRefusal(files: seq<FileOutcome>): (r: Option<Reason>)
    ensures r.None? <==> forall f | f in files :: !f.result.FileRefused?
  {
    if files == [] then None
    else if files[0].result.FileRefused? then Some(files[0].result.reason)
    else FirstRefusal(files[1..])
  }


  /** What became of one root: its outcome, or `None` where what stopped it is raised; and where its commands end. */
  datatype RootRun = RootRun(outcome: Option<RootOutcome>, stopped: Option<Reason>, next: nat)

  function RootSwitched(w: World, a: nat, root: Root, seen: Option<int>, reported: bool): RootRun {
    if !root.standing.Eligible? then
      RootRun(Some(RootOutcome(root.id, if root.standing.AlreadyThere? then AlreadySelected
                                        else Ineligible(root.standing.reason), [])), None, a)
    else if seen.None? || (root.plan.Some? && seen.value != root.current) then
      RootRun(Some(RootOutcome(root.id, Refused(ChangedMeanwhile), [])), None, a)
    else if root.plan.Some? then
      var next, files := FilesEnd(w, a, root.plan.value), FilesReported(w, a, root.plan.value);
      if files.Files? then
        RootRun(Some(RootOutcome(root.id, Overall(files.outcomes, files.stopped), files.outcomes)), files.stopped, next)
      else if reported then RootRun(Some(RootOutcome(root.id, Refused(Failed), [])), Some(Failed), next)
      else RootRun(None, None, next)
    else if w(a).Breaks? then
      if reported then RootRun(Some(RootOutcome(root.id, Refused(Why(w(a))), [])), Some(Why(w(a))), a + 1)
      else RootRun(None, None, a + 1)
    else
      RootRun(Some(RootOutcome(root.id, if w(a).Commits? then Switched else Refused(w(a).reason), [])), None, a + 1)
  }

  /** The operation so far: `marks[i]` is where the commands of root `i` begin, the last mark where they end. */
  datatype Progress = Progress(outcomes: seq<RootOutcome>, stopped: Option<Reason>, raised: bool, marks: seq<nat>)

  function Seen(expected: map<int, int>, root: Root): Option<int> {
    if root.id in expected then Some(expected[root.id]) else None
  }

  function Next(w: World, p: Progress, root: Root, seen: Option<int>): Progress
    requires p.marks != []
  {
    var a := p.marks[|p.marks| - 1];
    if p.raised then p
    else if p.stopped.Some? then
      p.(outcomes := p.outcomes + [RootOutcome(root.id, Refused(NotAttempted), [])], marks := p.marks + [a])
    else
      var run := RootSwitched(w, a, root, seen, Reported(p.outcomes));
      if run.outcome.None? then p.(raised := true, marks := p.marks + [run.next])
      else p.(outcomes := p.outcomes + [run.outcome.value], stopped := run.stopped, marks := p.marks + [run.next])
  }

  function Progressed(w: World, a: nat, roots: seq<Root>, expected: map<int, int>): (p: Progress)
    ensures p.marks != []
  {
    if roots == [] then Progress([], None, false, [a])
    else
      var root := roots[|roots| - 1];
      Next(w, Progressed(w, a, roots[..|roots| - 1], expected), root, Seen(expected, root))
  }

  function End(p: Progress): nat
    requires p.marks != []
  {
    p.marks[|p.marks| - 1]
  }

  function Verdicts(outcomes: seq<RootOutcome>): Verdict {
    var settled, waiting := Count(outcomes, true), Count(outcomes, false);
    if !Reported(outcomes) then Unchanged
    else if settled == |outcomes| then Complete
    else if settled + waiting == |outcomes| then AwaitsProvider else Partial
  }

  function Reporting(p: Progress): Report {
    if p.raised then Raises else Report(Verdicts(p.outcomes), p.outcomes)
  }

  predicate Settled(o: RootOutcome) {
    o.result.Switched? || o.result.AlreadySelected?
  }

  ghost predicate AllSettled(outcomes: seq<RootOutcome>) {
    forall o | o in outcomes :: Settled(o)
  }

  ghost predicate AllSettledOrPending(outcomes: seq<RootOutcome>) {
    forall o | o in outcomes :: Settled(o) || o.result.Pending?
  }

  /** How many roots are settled, or how many are pending. */
  function Count(outcomes: seq<RootOutcome>, settled: bool): nat {
    if outcomes == [] then 0
    else (if (if settled then Settled(outcomes[0]) else outcomes[0].result.Pending?) then 1 else 0)
         + Count(outcomes[1..], settled)
  }

  /** The counts decide exactly what they are read for. */
  lemma {:induction false} CountAll(outcomes: seq<RootOutcome>)
    ensures Count(outcomes, true) + Count(outcomes, false) <= |outcomes|
    ensures Count(outcomes, true) == |outcomes| <==> AllSettled(outcomes)
    ensures Count(outcomes, true) + Count(outcomes, false) == |outcomes| <==> AllSettledOrPending(outcomes)
  {
    if outcomes != [] {
      CountAll(outcomes[1..]);
      assert forall o :: o in outcomes <==> o == outcomes[0] || o in outcomes[1..];
    }
  }


  // ---- files ---------------------------------------------------------------------------------------

  lemma ToldTruthful(plan: seq<Step>, files: seq<FileOutcome>, responses: seq<Response>)
    requires |files| == |plan| == |responses|
    requires forall i | 0 <= i < |plan| :: files[i] == Told(plan[i], responses[i])
    ensures FilesTruthful(plan, files)
  {
  }

  /** Where a participant's commands end, and what stops them. */
  lemma FilesStop(w: World, a: nat, plan: seq<Step>)
    ensures var n, b := UntilBreak(w, a, |plan|), FilesEnd(w, a, plan);
            && a <= b && StopsAtBreak(w, a, b)
            && (Broken(w, a, b) <==> n < |plan|)
            && (Committed(w, a, b) <==> Committed(w, a, a + n))
  {
  }

  /** A change is reported exactly after a commit. */
  lemma FilesCommit(w: World, a: nat, plan: seq<Step>)
    requires FilesReported(w, a, plan).Files?
    ensures FilesChanged(FilesReported(w, a, plan).outcomes) <==> Committed(w, a, FilesEnd(w, a, plan))
  {
    hide FilesEnd, UntilBreak, StopsAtBreak, Broken, Committed, FilesChanged, ToldAll, Told;
    FilesStop(w, a, plan);
    var n, files := UntilBreak(w, a, |plan|), FilesReported(w, a, plan).outcomes;
    if FilesChanged(files) {
      CommitBehind(w, a, plan, n);
    }
    if Committed(w, a, a + n) {
      ChangeBefore(w, a, plan, n);
    }
  }

  /** A reported change has its commit behind it. */
  lemma CommitBehind(w: World, a: nat, plan: seq<Step>, n: nat)
    requires n == UntilBreak(w, a, |plan|) && FilesChanged(ToldAll(w, a, plan, n))
    ensures Committed(w, a, a + n)
  {
    hide UntilBreak, Told, ToldAll;
    var files := ToldAll(w, a, plan, n);
    var f :| f in files && f.changed;
    var i :| 0 <= i < |files| && files[i] == f;
    ChangedIsCommit(plan[i], if i <= n then w(a + i) else Refuses(NotAttempted, false));
    BreakIsNone(w, a, plan, i);
  }

  /** A commit leaves its change in the report. */
  lemma ChangeBefore(w: World, a: nat, plan: seq<Step>, n: nat)
    requires n <= |plan| && Committed(w, a, a + n)
    ensures FilesChanged(ToldAll(w, a, plan, n))
  {
    hide Told, ToldAll;
    var files := ToldAll(w, a, plan, n);
    var i :| a <= i < a + n && w(i).Commits?;
    ChangedIsCommit(plan[i - a], w(i));
    assert files[i - a] in files;
  }

  lemma ChangedIsCommit(step: Step, r: Response)
    ensures Told(step, r).changed <==> r.Commits?
  {
  }

  lemma BreakIsNone(w: World, a: nat, plan: seq<Step>, i: nat)
    requires i <= UntilBreak(w, a, |plan|) && i < |plan| && w(a + i).Commits?
    ensures i < UntilBreak(w, a, |plan|)
  {
  }

  /** For every world: files are truthful, a change is reported exactly after a commit, a stop exactly after a break
      that followed one. */
  lemma FilesTold(w: World, a: nat, plan: seq<Step>)
    ensures a <= FilesEnd(w, a, plan) && StopsAtBreak(w, a, FilesEnd(w, a, plan))
    ensures var r, b := FilesReported(w, a, plan), FilesEnd(w, a, plan);
            && (r.Files? ==>
                  && FilesTruthful(plan, r.outcomes)
                  && (FilesChanged(r.outcomes) <==> Committed(w, a, b))
                  && (r.stopped.Some? <==> Broken(w, a, b))
                  && (r.stopped.Some? ==> FilesChanged(r.outcomes) && exists f | f in r.outcomes :: f.result.FileRefused?))
            && (r.FilesRaise? ==> Broken(w, a, b) && !Committed(w, a, b))
  {
    hide FilesTruthful, FilesChanged, StopsAtBreak, FilesEnd, Committed, Broken;
    var n, r := UntilBreak(w, a, |plan|), FilesReported(w, a, plan);
    FilesStop(w, a, plan);
    if r.Files? {
      FilesCommit(w, a, plan);
      var responses := seq(|plan|, i requires 0 <= i => if i <= n then w(a + i) else Refuses(NotAttempted, false));
      ToldTruthful(plan, r.outcomes, responses);
      if n < |plan| {
        assert r.outcomes[n] == Told(plan[n], w(a + n));
        assert r.outcomes[n] in r.outcomes;
      }
    }
  }

  lemma FilesRaised(w: World, a: nat, plan: seq<Step>)
    requires UntilBreak(w, a, |plan|) < |plan| && !Committed(w, a, a + UntilBreak(w, a, |plan|))
    ensures FilesReported(w, a, plan).FilesRaise? && FilesEnd(w, a, plan) == a + UntilBreak(w, a, |plan|) + 1
  {
  }

  lemma FilesEnded(w: World, a: nat, plan: seq<Step>)
    ensures var n := UntilBreak(w, a, |plan|);
            FilesEnd(w, a, plan) == if n < |plan| then a + n + 1 else a + n
  {
  }

  /** The outcomes told one by one are the report. */
  lemma FilesAre(w: World, a: nat, plan: seq<Step>, outcomes: seq<FileOutcome>)
    requires |outcomes| == |plan|
    requires var n := UntilBreak(w, a, |plan|);
             && (n < |plan| ==> Committed(w, a, a + n))
             && forall i | 0 <= i < |plan| ::
                  outcomes[i] == Told(plan[i], if i <= n then w(a + i) else Refuses(NotAttempted, false))
    ensures var n := UntilBreak(w, a, |plan|);
            FilesReported(w, a, plan) == Files(outcomes, if n < |plan| then Some(Why(w(a + n))) else None)
  {
    hide Told, Committed, UntilBreak, ToldAll;
    assert ToldAll(w, a, plan, UntilBreak(w, a, |plan|)) == outcomes;
  }

  /** File by file: what is said to have changed is what durably changed exactly where the file's own command did not
      hide its change; a file without a command changed nothing and says so. */
  lemma FileHonest(w: World, a: nat, plan: seq<Step>, i: nat)
    requires FilesReported(w, a, plan).Files? && i < |plan|
    ensures var f, b := FilesReported(w, a, plan).outcomes[i], FilesEnd(w, a, plan);
            && ((f.changed <==> Durable(w, a + i, if a + i < b then a + i + 1 else a + i))
                <==> a + i >= b || !Hides(w(a + i)))
            && (a + i >= b ==> f.result == FileRefused(NotAttempted))
            && (a + i < b ==> (f.changed <==> w(a + i).Commits?))
  {
    var b := FilesEnd(w, a, plan);
    if a + i < b {
      assert Durable(w, a + i, a + i + 1) <==> Lasting(w(a + i));
    }
  }

  // ---- roots ---------------------------------------------------------------------------------------

  /** A root whose commands went from `a` to `b` is truthfully told of: it changed, as reported, exactly if one of them
      committed; only a root the operator named changes; and what is told of it is what is durable exactly where one
      committed or none hid its change. */
  ghost predicate RootTold(w: World, root: Root, expected: map<int, int>, o: RootOutcome, a: nat, b: nat) {
    && a <= b
    && RootTruthful(root, o)
    && (RootChanged(o) <==> Committed(w, a, b))
    && (RootChanged(o) ==> root.id in expected)
    && (!root.standing.Eligible? || root.id !in expected ==> a == b)
    && ((RootChanged(o) <==> Durable(w, a, b)) <==> Committed(w, a, b) || !Hidden(w, a, b))
    && (o.files != [] ==>
          && root.plan.Some? && b == FilesEnd(w, a, root.plan.value)
          && var files := FilesReported(w, a, root.plan.value);
             files.Files? && files.outcomes == o.files)
  }

  /** The operator chose for this root, and where its files are moved one by one its route is still the one seen then. */
  predicate Chosen(root: Root, expected: map<int, int>) {
    && root.standing.Eligible? && root.id in expected
    && (root.plan.Some? ==> expected[root.id] == root.current)
  }

  /** The commands of a root, from `a` to `b`: none where the operation was stopped or the root was not chosen; one for its
      own route; one for each file up to one that breaks. */
  ghost predicate CommandsIssued(w: World, root: Root, expected: map<int, int>, stopped: bool, a: nat, b: nat) {
    if stopped || !Chosen(root, expected) then b == a
    else if root.plan.None? then b == a + 1
    else
      && a <= b <= a + |root.plan.value| && (forall i | a <= i < b - 1 :: !w(i).Breaks?)
      && (b < a + |root.plan.value| ==> a < b && w(b - 1).Breaks?)
  }

  /** What a root without commands is told, and what its own one command comes to. */
  ghost predicate AnswerGiven(w: World, root: Root, expected: map<int, int>, stopped: bool, o: RootOutcome, a: nat) {
    && o.root == root.id
    && if stopped then o.result == Refused(NotAttempted) && o.files == []
    else
      match root.standing
      case AlreadyThere => o.result == AlreadySelected && o.files == []
      case NotEligible(reason) => o.result == Ineligible(reason) && o.files == []
      case Eligible =>
        if !Chosen(root, expected) then o.result == Refused(ChangedMeanwhile) && o.files == []
        else if root.plan.None? then
          o.files == [] && o.result == match w(a)
            case Commits => Switched
            case Refuses(reason, _) => Refused(reason)
            case Breaks(gone, _) => Refused(if gone then Gone else Failed)
        else FilesAnswered(w, root.plan.value, o, a)
  }

  /** A root moved file by file: every file is told what its own command came to, and the root what its files were; or the
      first command broke with nothing committed. */
  ghost predicate FilesAnswered(w: World, plan: seq<Step>, o: RootOutcome, a: nat) {
    && (o.files == [] <==>
          plan == [] || exists c | a <= c < a + |plan| :: w(c).Breaks? && !Broken(w, a, c) && !Committed(w, a, c))
    && if o.files == [] then o.result == Refused(if plan == [] then NoReason else Failed)
    else
      && |o.files| == |plan|
      && (forall k | 0 <= k < |plan| ::
            if Broken(w, a, a + k)
            then o.files[k] == FileOutcome(plan[k].artifact, FileRefused(NotAttempted), false)
            else o.files[k] == match w(a + k)
              case Commits => FileOutcome(plan[k].artifact, if plan[k].alternate then FilePending else FileSwitched, true)
              case Refuses(reason, _) => FileOutcome(plan[k].artifact, FileRefused(reason), false)
              case Breaks(gone, _) => FileOutcome(plan[k].artifact, FileRefused(if gone then Gone else Failed), false))
      && (if exists k | 0 <= k < |plan| :: o.files[k].result.FileRefused?
          then exists k | 0 <= k < |plan| ::
                 && o.files[k].result.FileRefused? && o.result == Refused(o.files[k].result.reason)
                 && forall i | 0 <= i < k :: !o.files[i].result.FileRefused?
          else o.result == if exists k | 0 <= k < |plan| :: o.files[k].result.FilePending? then Pending else Switched)
  }

  lemma HonestStretch(w: World, a: nat, b: nat)
    ensures (Committed(w, a, b) <==> Durable(w, a, b)) <==> Committed(w, a, b) || !Hidden(w, a, b)
  {
    if Committed(w, a, b) {
      var i :| a <= i < b && w(i).Commits?;
      assert Lasting(w(i));
    }
    if Hidden(w, a, b) {
      var i :| a <= i < b && Hides(w(i));
      assert Lasting(w(i));
    }
    if Durable(w, a, b) {
      var i :| a <= i < b && Lasting(w(i));
      assert w(i).Commits? || Hides(w(i));
    }
  }

  lemma RootMeant(w: World, a: nat, root: Root, expected: map<int, int>, reported: bool)
    ensures var run := RootSwitched(w, a, root, Seen(expected, root), reported);
            && a <= run.next && StopsAtBreak(w, a, run.next)
            && (run.outcome.Some? ==>
                  && RootTold(w, root, expected, run.outcome.value, a, run.next)
                  && (run.stopped.Some? <==> Broken(w, a, run.next))
                  && (run.stopped.Some? ==> reported || RootChanged(run.outcome.value)))
            && (run.outcome.None? ==> Broken(w, a, run.next) && !Committed(w, a, run.next) && !reported)
  {
    var run := RootSwitched(w, a, root, Seen(expected, root), reported);
    HonestStretch(w, a, run.next);
    if root.plan.Some? {
      FilesTold(w, a, root.plan.value);
      OverallMeans(root.plan.value, FilesReported(w, a, root.plan.value));
    }
  }

  lemma OverallMeans(plan: seq<Step>, r: FilesReport)
    requires r.Files? ==> FilesTruthful(plan, r.outcomes)
    requires r.Files? && r.stopped.Some? ==> exists f | f in r.outcomes :: f.result.FileRefused?
    ensures r.Files? ==>
              var result := Overall(r.outcomes, r.stopped);
              && (result.Switched? ==> r.outcomes != [] && forall f | f in r.outcomes :: f.result.FileSwitched?)
              && (result.Pending? ==>
                    r.outcomes != [] && (exists f | f in r.outcomes :: f.result.FilePending?)
                    && forall f | f in r.outcomes :: !f.result.FileRefused?)
              && (result.Switched? || result.Pending? ==> FilesChanged(r.outcomes))
              && (result.Switched? || result.Pending? || result.Refused?)
  {
    if r.Files? && r.outcomes != [] {
      assert r.outcomes[0] in r.outcomes;
    }
  }

  // ---- the whole operation -------------------------------------------------------------------------

  /** One truthful outcome for each root, in the order of the roots, each for its own stretch of commands. */
  ghost predicate AllTold(w: World, a: nat, roots: seq<Root>, expected: map<int, int>,
                          outcomes: seq<RootOutcome>, marks: seq<nat>)
  {
    && |outcomes| == |roots| && |marks| == |roots| + 1 && marks[0] == a
    && forall i | 0 <= i < |roots| :: RootTold(w, roots[i], expected, outcomes[i], marks[i], marks[i + 1])
  }

  /** Which commands each root issues, as far as the operation goes; nothing is issued once one broke. */
  ghost predicate AllIssued(w: World, a: nat, roots: seq<Root>, expected: map<int, int>, marks: seq<nat>) {
    && 1 <= |marks| <= |roots| + 1 && marks[0] == a
    && forall i | 0 <= i < |marks| - 1 ::
         CommandsIssued(w, roots[i], expected, Broken(w, a, marks[i]), marks[i], marks[i + 1])
  }

  /** What each root is told, from the roots, what the operator saw, and the commands alone. */
  ghost predicate AllAnswered(w: World, a: nat, roots: seq<Root>, expected: map<int, int>,
                              outcomes: seq<RootOutcome>, marks: seq<nat>)
  {
    && |outcomes| == |roots| && |marks| == |roots| + 1
    && forall i | 0 <= i < |roots| :: AnswerGiven(w, roots[i], expected, Broken(w, a, marks[i]), outcomes[i], marks[i])
  }

  lemma FilesIssued(w: World, a: nat, root: Root, expected: map<int, int>)
    requires Chosen(root, expected) && root.plan.Some?
    ensures CommandsIssued(w, root, expected, false, a, FilesEnd(w, a, root.plan.value))
  {
  }

  lemma RootIssued(w: World, a: nat, root: Root, expected: map<int, int>, reported: bool)
    ensures CommandsIssued(w, root, expected, false, a, RootSwitched(w, a, root, Seen(expected, root), reported).next)
  {
    if Chosen(root, expected) && root.plan.Some? {
      FilesIssued(w, a, root, expected);
    }
  }

  lemma BreakBefore(w: World, a: nat, plan: seq<Step>, k: nat)
    requires k <= |plan|
    ensures Broken(w, a, a + k) <==> k > UntilBreak(w, a, |plan|)
  {
  }

  lemma {:induction false} FirstRefusalIs(files: seq<FileOutcome>)
    ensures FirstRefusal(files).Some? ==>
              exists k | 0 <= k < |files| ::
                && files[k].result.FileRefused? && FirstRefusal(files) == Some(files[k].result.reason)
                && forall i | 0 <= i < k :: !files[i].result.FileRefused?
  {
    if files != [] {
      if files[0].result.FileRefused? {
        assert files[0].result.FileRefused?;
      } else {
        FirstRefusalIs(files[1..]);
        if k :| 0 <= k < |files[1..]| && files[1..][k].result.FileRefused?
                && FirstRefusal(files[1..]) == Some(files[1..][k].result.reason)
                && forall i | 0 <= i < k :: !files[1..][i].result.FileRefused? {
          assert files[k + 1] == files[1..][k];
          forall i | 0 <= i < k + 1 ensures !files[i].result.FileRefused? {
            if i > 0 {
              assert files[i] == files[1..][i - 1];
            }
          }
        }
      }
    }
  }

  /** The result of a root moved file by file. */
  lemma OverallIs(plan: seq<Step>, files: seq<FileOutcome>, stopped: Option<Reason>)
    requires |files| == |plan| && plan != []
    ensures var result := Overall(files, stopped);
            if exists k | 0 <= k < |plan| :: files[k].result.FileRefused?
            then exists k | 0 <= k < |plan| ::
                   && files[k].result.FileRefused? && result == Refused(files[k].result.reason)
                   && forall i | 0 <= i < k :: !files[i].result.FileRefused?
            else result == if exists k | 0 <= k < |plan| :: files[k].result.FilePending? then Pending else Switched
  {
    FirstRefusalIs(files);
    forall k | 0 <= k < |files| ensures files[k] in files {
    }
  }

  lemma FilesTruth(w: World, a: nat, plan: seq<Step>, n: nat, k: nat)
    requires n == UntilBreak(w, a, |plan|) && k < |plan|
    ensures var files := ToldAll(w, a, plan, n);
            if Broken(w, a, a + k)
            then files[k] == FileOutcome(plan[k].artifact, FileRefused(NotAttempted), false)
            else files[k] == match w(a + k)
              case Commits => FileOutcome(plan[k].artifact, if plan[k].alternate then FilePending else FileSwitched, true)
              case Refuses(reason, _) => FileOutcome(plan[k].artifact, FileRefused(reason), false)
              case Breaks(gone, _) => FileOutcome(plan[k].artifact, FileRefused(if gone then Gone else Failed), false)
  {
    hide UntilBreak, ToldAll, Broken;
    BreakBefore(w, a, plan, k);
  }

  lemma RaisesFirst(w: World, a: nat, plan: seq<Step>)
    ensures FilesReported(w, a, plan).FilesRaise? <==>
              exists c | a <= c < a + |plan| :: w(c).Breaks? && !Broken(w, a, c) && !Committed(w, a, c)
  {
    hide UntilBreak, Broken, Committed, ToldAll;
    var n := UntilBreak(w, a, |plan|);
    if n < |plan| && !Committed(w, a, a + n) {
      assert w(a + n).Breaks? && !Broken(w, a, a + n);
    }
    if c :| a <= c < a + |plan| && w(c).Breaks? && !Broken(w, a, c) && !Committed(w, a, c) {
      BreakBefore(w, a, plan, c - a);
      NextBroken(w, a, c);
      BreakBefore(w, a, plan, c - a + 1);
      assert c == a + n;
    }
  }

  lemma NextBroken(w: World, a: nat, c: nat)
    requires a <= c && w(c).Breaks?
    ensures Broken(w, a, c + 1)
  {
  }

  lemma FilesAnswer(w: World, a: nat, root: Root, reported: bool)
    requires root.standing.Eligible? && root.plan.Some?
    requires RootSwitched(w, a, root, Some(root.current), reported).outcome.Some?
    ensures FilesAnswered(w, root.plan.value, RootSwitched(w, a, root, Some(root.current), reported).outcome.value, a)
  {
    hide UntilBreak, ToldAll, Overall, Committed, Broken;
    var plan := root.plan.value;
    var n, files := UntilBreak(w, a, |plan|), FilesReported(w, a, plan);
    RaisesFirst(w, a, plan);
    if files.Files? {
      if plan == [] {
        assert n == 0;
        EmptyOverall(files.outcomes);
      } else {
        OverallIs(plan, files.outcomes, files.stopped);
        forall k | 0 <= k < |plan| {
          FilesTruth(w, a, plan, n, k);
        }
      }
    }
  }

  lemma EmptyOverall(files: seq<FileOutcome>)
    requires files == []
    ensures Overall(files, None) == Refused(NoReason)
  {
  }

  lemma RootAnswered(w: World, a: nat, root: Root, expected: map<int, int>, reported: bool)
    requires RootSwitched(w, a, root, Seen(expected, root), reported).outcome.Some?
    ensures AnswerGiven(w, root, expected, false, RootSwitched(w, a, root, Seen(expected, root), reported).outcome.value, a)
  {
    hide FilesAnswered, FilesReported, FilesEnd;
    if Chosen(root, expected) && root.plan.Some? {
      FilesAnswer(w, a, root, reported);
    }
  }

  /** Which roots get which commands, and what each is told, whatever the commands come to. */
  lemma {:induction false} ProgressExact(w: World, a: nat, roots: seq<Root>, expected: map<int, int>)
    ensures var p := Progressed(w, a, roots, expected);
            && AllIssued(w, a, roots, expected, p.marks)
            && (!p.raised ==> AllAnswered(w, a, roots, expected, p.outcomes, p.marks))
  {
    hide AllIssued, AllAnswered, Broken, Committed, StopsAtBreak, AllTold;
    if roots == [] {
      NothingIssued(w, a, expected);
    } else {
      var before, root := roots[..|roots| - 1], roots[|roots| - 1];
      ProgressExact(w, a, before, expected);
      ProgressMeant(w, a, before, expected);
      var q := Progressed(w, a, before, expected);
      assert before + [root] == roots;
      if q.raised {
        IssuedLonger(w, a, before, root, expected, q.marks);
      } else {
        NextExact(w, a, before, root, expected, q);
      }
    }
  }

  lemma NothingIssued(w: World, a: nat, expected: map<int, int>)
    ensures AllIssued(w, a, [], expected, [a]) && AllAnswered(w, a, [], expected, [], [a])
  {
  }

  lemma IssuedLonger(w: World, a: nat, roots: seq<Root>, root: Root, expected: map<int, int>, marks: seq<nat>)
    requires AllIssued(w, a, roots, expected, marks)
    ensures AllIssued(w, a, roots + [root], expected, marks)
  {
    hide CommandsIssued;
  }

  lemma IssuedMore(w: World, a: nat, roots: seq<Root>, root: Root, expected: map<int, int>, marks: seq<nat>, b: nat)
    requires AllIssued(w, a, roots, expected, marks) && |marks| == |roots| + 1
    requires CommandsIssued(w, root, expected, Broken(w, a, marks[|marks| - 1]), marks[|marks| - 1], b)
    ensures AllIssued(w, a, roots + [root], expected, marks + [b])
  {
    hide CommandsIssued;
    var all, ends := roots + [root], marks + [b];
    forall i | 0 <= i < |ends| - 1
      ensures CommandsIssued(w, all[i], expected, Broken(w, a, ends[i]), ends[i], ends[i + 1])
    {
      if i < |roots| {
        assert CommandsIssued(w, roots[i], expected, Broken(w, a, marks[i]), marks[i], marks[i + 1]);
      }
    }
  }

  lemma AnsweredMore(w: World, a: nat, roots: seq<Root>, root: Root, expected: map<int, int>, outcomes: seq<RootOutcome>,
                     o: RootOutcome, marks: seq<nat>, b: nat)
    requires AllAnswered(w, a, roots, expected, outcomes, marks)
    requires AnswerGiven(w, root, expected, Broken(w, a, marks[|marks| - 1]), o, marks[|marks| - 1])
    ensures AllAnswered(w, a, roots + [root], expected, outcomes + [o], marks + [b])
  {
    hide AnswerGiven;
    var all, told, ends := roots + [root], outcomes + [o], marks + [b];
    forall i | 0 <= i < |all| ensures AnswerGiven(w, all[i], expected, Broken(w, a, ends[i]), told[i], ends[i]) {
      if i < |roots| {
        assert AnswerGiven(w, roots[i], expected, Broken(w, a, marks[i]), outcomes[i], marks[i]);
      }
    }
  }

  lemma NextExact(w: World, a: nat, roots: seq<Root>, root: Root, expected: map<int, int>, q: Progress)
    requires !q.raised && AllIssued(w, a, roots, expected, q.marks)
    requires AllAnswered(w, a, roots, expected, q.outcomes, q.marks)
    requires q.stopped.Some? <==> Broken(w, a, End(q))
    ensures var p := Next(w, q, root, Seen(expected, root));
            && AllIssued(w, a, roots + [root], expected, p.marks)
            && (!p.raised ==> AllAnswered(w, a, roots + [root], expected, p.outcomes, p.marks))
  {
    hide CommandsIssued, AnswerGiven, RootSwitched, Broken;
    var m := End(q);
    if q.stopped.Some? {
      StoppedIssues(w, root, expected, m);
      IssuedMore(w, a, roots, root, expected, q.marks, m);
      AnsweredMore(w, a, roots, root, expected, q.outcomes, RootOutcome(root.id, Refused(NotAttempted), []), q.marks, m);
    } else {
      var run := RootSwitched(w, m, root, Seen(expected, root), Reported(q.outcomes));
      RootIssued(w, m, root, expected, Reported(q.outcomes));
      IssuedMore(w, a, roots, root, expected, q.marks, run.next);
      if run.outcome.Some? {
        RootAnswered(w, m, root, expected, Reported(q.outcomes));
        AnsweredMore(w, a, roots, root, expected, q.outcomes, run.outcome.value, q.marks, run.next);
      }
    }
  }

  lemma StoppedIssues(w: World, root: Root, expected: map<int, int>, m: nat)
    ensures CommandsIssued(w, root, expected, true, m, m)
    ensures AnswerGiven(w, root, expected, true, RootOutcome(root.id, Refused(NotAttempted), []), m)
  {
  }

  /** What stops the operation is raised exactly when nothing had committed before. */
  lemma RaisesExactly(w: World, a: nat, roots: seq<Root>, expected: map<int, int>)
    ensures var p := Progressed(w, a, roots, expected);
            p.raised <==> Broken(w, a, End(p)) && !Committed(w, a, End(p))
  {
    hide Broken, Committed;
    ProgressMeant(w, a, roots, expected);
  }

  lemma {:induction false} ProgressMeant(w: World, a: nat, roots: seq<Root>, expected: map<int, int>)
    ensures var p := Progressed(w, a, roots, expected);
            && a <= End(p) && StopsAtBreak(w, a, End(p))
            && (!p.raised ==>
                  && AllTold(w, a, roots, expected, p.outcomes, p.marks)
                  && (Reported(p.outcomes) <==> Committed(w, a, End(p)))
                  && (p.stopped.Some? <==> Broken(w, a, End(p)))
                  && (p.stopped.Some? ==> Reported(p.outcomes)))
            && (p.raised ==> Broken(w, a, End(p)) && !Committed(w, a, End(p)))
  {
    if roots != [] {
      var before, root := roots[..|roots| - 1], roots[|roots| - 1];
      ProgressMeant(w, a, before, expected);
      var q := Progressed(w, a, before, expected);
      if !q.raised {
        NextMeant(w, a, before, expected, q, root);
      }
      assert before + [root] == roots;
    }
  }

  lemma NextMeant(w: World, a: nat, before: seq<Root>, expected: map<int, int>, q: Progress, root: Root)
    requires q.marks != [] && a <= End(q) && StopsAtBreak(w, a, End(q)) && !q.raised
    requires AllTold(w, a, before, expected, q.outcomes, q.marks)
    requires Reported(q.outcomes) <==> Committed(w, a, End(q))
    requires q.stopped.Some? <==> Broken(w, a, End(q))
    requires q.stopped.Some? ==> Reported(q.outcomes)
    ensures var p := Next(w, q, root, Seen(expected, root));
            && p.marks != [] && a <= End(p) && StopsAtBreak(w, a, End(p))
            && (!p.raised ==>
                  && AllTold(w, a, before + [root], expected, p.outcomes, p.marks)
                  && (Reported(p.outcomes) <==> Committed(w, a, End(p)))
                  && (p.stopped.Some? <==> Broken(w, a, End(p)))
                  && (p.stopped.Some? ==> Reported(p.outcomes)))
            && (p.raised ==> Broken(w, a, End(p)) && !Committed(w, a, End(p)))
  {
    var p, m := Next(w, q, root, Seen(expected, root)), End(q);
    if q.stopped.Some? {
      var o := RootOutcome(root.id, Refused(NotAttempted), []);
      ReportedMore(q.outcomes, o);
      HonestStretch(w, m, m);
      AllToldMore(w, a, before, expected, q.outcomes, q.marks, root, o, m);
    } else {
      var run := RootSwitched(w, m, root, Seen(expected, root), Reported(q.outcomes));
      RootMeant(w, m, root, expected, Reported(q.outcomes));
      Stretches(w, a, m, run.next);
      if run.outcome.Some? {
        ReportedMore(q.outcomes, run.outcome.value);
        AllToldMore(w, a, before, expected, q.outcomes, q.marks, root, run.outcome.value, run.next);
      }
    }
  }

  lemma AllToldMore(w: World, a: nat, roots: seq<Root>, expected: map<int, int>, outcomes: seq<RootOutcome>,
                    marks: seq<nat>, root: Root, o: RootOutcome, next: nat)
    requires AllTold(w, a, roots, expected, outcomes, marks)
    requires RootTold(w, root, expected, o, marks[|marks| - 1], next)
    ensures AllTold(w, a, roots + [root], expected, outcomes + [o], marks + [next])
  {
    var all, told, ends := roots + [root], outcomes + [o], marks + [next];
    forall i | 0 <= i < |all| ensures RootTold(w, all[i], expected, told[i], ends[i], ends[i + 1]) {
      if i < |roots| {
        assert RootTold(w, roots[i], expected, outcomes[i], marks[i], marks[i + 1]);
      }
    }
  }

  /** For every world: `unchanged` is reported exactly when no command committed, and is then true exactly when no refusal
      came after a durable change. */
  lemma UnchangedExactly(w: World, a: nat, roots: seq<Root>, expected: map<int, int>)
    requires !Progressed(w, a, roots, expected).raised
    ensures var p := Progressed(w, a, roots, expected);
            && (Verdicts(p.outcomes).Unchanged? <==> !Committed(w, a, End(p)))
            && (Verdicts(p.outcomes).Unchanged? ==> (Durable(w, a, End(p)) <==> HiddenRefusal(w, a, End(p))))
  {
    ProgressMeant(w, a, roots, expected);
    var b := End(Progressed(w, a, roots, expected));
    if HiddenRefusal(w, a, b) {
      var i :| a <= i < b && w(i).Refuses? && w(i).durable;
      assert Lasting(w(i));
    }
    if Durable(w, a, b) && !Committed(w, a, b) {
      var i :| a <= i < b && Lasting(w(i));
      assert w(i).Refuses?;
    }
  }

  /** What is raised followed no commit, stopped the last command, and hides a durable change exactly if that command or
      an earlier refusal did. */
  lemma RaisedExactly(w: World, a: nat, roots: seq<Root>, expected: map<int, int>)
    requires Progressed(w, a, roots, expected).raised
    ensures var b := End(Progressed(w, a, roots, expected));
            && a < b && w(b - 1).Breaks? && !Committed(w, a, b)
            && (Durable(w, a, b) <==> w(b - 1).durable || HiddenRefusal(w, a, b - 1))
  {
    ProgressMeant(w, a, roots, expected);
    var b := End(Progressed(w, a, roots, expected));
    var k :| a <= k < b && w(k).Breaks?;
    assert k == b - 1;
    if w(b - 1).durable {
      assert Lasting(w(b - 1));
    }
    if HiddenRefusal(w, a, b - 1) {
      var i :| a <= i < b - 1 && w(i).Refuses? && w(i).durable;
      assert Lasting(w(i));
    }
    if Durable(w, a, b) && !w(b - 1).durable {
      var i :| a <= i < b && Lasting(w(i));
      assert i < b - 1 && w(i).Refuses?;
    }
  }

  /** `unchanged` although the root's route was replaced: the command's own storage fault, after its commit, is a
      refusal. */
  lemma UnchangedAlthoughReplaced(reason: Reason)
    ensures var w := (i: nat) => if i == 0 then Refuses(reason, true) else Commits;
            var p := Progressed(w, 0, [Root(1, 7, Eligible, None)], map[1 := 7]);
            && Reporting(p) == Report(Unchanged, [RootOutcome(1, Refused(reason), [])])
            && Durable(w, 0, End(p))
  {
    var w := (i: nat) => if i == 0 then Refuses(reason, true) else Commits;
    var root := Root(1, 7, Eligible, None);
    assert [root][..0] == [];
    var p := Progressed(w, 0, [root], map[1 := 7]);
    assert p == Next(w, Progressed(w, 0, [], map[1 := 7]), root, Some(7));
    assert Lasting(w(0));
  }

  /** Nor does such a fault stop the operation: the next root's command is issued all the same. */
  lemma FaultGoesOn(reason: Reason)
    ensures var w := (i: nat) => if i == 0 then Refuses(reason, true) else Commits;
            var p := Progressed(w, 0, [Root(1, 7, Eligible, None), Root(2, 7, Eligible, None)], map[1 := 7, 2 := 7]);
            Reporting(p) == Report(Partial, [RootOutcome(1, Refused(reason), []), RootOutcome(2, Switched, [])])
  {
    var w := (i: nat) => if i == 0 then Refuses(reason, true) else Commits;
    var first, second, seen := Root(1, 7, Eligible, None), Root(2, 7, Eligible, None), map[1 := 7, 2 := 7];
    assert [first][..0] == [] && [first, second][..1] == [first];
    var q := Progressed(w, 0, [first], seen);
    assert q == Next(w, Progressed(w, 0, [], seen), first, Some(7));
    var p := Progressed(w, 0, [first, second], seen);
    assert p == Next(w, q, second, Some(7));
    var one, two := RootOutcome(1, Refused(reason), []), RootOutcome(2, Switched, []);
    assert p.outcomes == [one, two];
    assert RootChanged(two);
    assert two in p.outcomes;
    assert [one, two][1..] == [two] && [two][1..] == [];
    assert Count([two], true) == 1 && Count([two], false) == 0;
  }

  // ---- the operation as it runs --------------------------------------------------------------------

  class Operation {
    const world: World
    /** How many commands were issued so far. */
    var issued: nat

    constructor (world: World)
      ensures this.world == world && issued == 0
    {
      this.world := world;
      issued := 0;
    }

    method Issue() returns (r: Response)
      modifies this
      ensures issued == old(issued) + 1 && r == world(old(issued))
    {
      r := world(issued);
      issued := issued + 1;
    }

    /** One participant's files, one command each; after a stop the rest are not attempted. */
    method SwitchThroughEquivalents(plan: seq<Step>) returns (r: FilesReport)
      modifies this
      ensures r == FilesReported(world, old(issued), plan) && issued == FilesEnd(world, old(issued), plan)
      ensures old(issued) <= issued && StopsAtBreak(world, old(issued), issued)
      ensures r.Files? ==>
                && FilesTruthful(plan, r.outcomes)
                && (FilesChanged(r.outcomes) <==> Committed(world, old(issued), issued))
                && (r.stopped.Some? <==> Broken(world, old(issued), issued))
                && (r.stopped.Some? ==> FilesChanged(r.outcomes) && exists f | f in r.outcomes :: f.result.FileRefused?)
      ensures r.FilesRaise? ==> Broken(world, old(issued), issued) && !Committed(world, old(issued), issued)
    {
      hide FilesTruthful, FilesReported, FilesEnd, FilesChanged, StopsAtBreak, Committed, Broken, UntilBreak;
      ghost var start := issued;
      ghost var n := UntilBreak(world, start, |plan|);
      FilesTold(world, start, plan);
      var outcomes: seq<FileOutcome> := [];
      var stopped: Option<Reason> := None;
      NothingYet(world, start);
      for k := 0 to |plan|
        invariant issued == if k <= n then start + k else start + n + 1
        invariant stopped == if k <= n then None else Some(Why(world(start + n)))
        invariant |outcomes| == k
        invariant forall i | 0 <= i < k ::
                    outcomes[i] == Told(plan[i], if i <= n then world(start + i) else Refuses(NotAttempted, false))
        invariant FilesChanged(outcomes) <==> Committed(world, start, issued)
        invariant k > n ==> Committed(world, start, start + n)
      {
        var step := plan[k];
        var outcome := FileOutcome(step.artifact, FileRefused(NotAttempted), false);
        if stopped.None? {
          var response := Issue();
          NextCommitted(world, start, issued - 1);
          BreaksThere(world, start, |plan|, k);
          match response {
            case Commits =>
              outcome := FileOutcome(step.artifact, if step.alternate then FilePending else FileSwitched, true);
            case Refuses(reason, _) => outcome := FileOutcome(step.artifact, FileRefused(reason), false);
            case Breaks(gone, _) =>
              if !FilesChanged(outcomes) {
                FilesRaised(world, start, plan);
                return FilesRaise;
              }
              stopped := Some(if gone then Gone else Failed);
              outcome := FileOutcome(step.artifact, FileRefused(stopped.value), false);
          }
        }
        FilesMore(outcomes, outcome);
        outcomes := outcomes + [outcome];
      }
      FilesAre(world, start, plan, outcomes);
      FilesEnded(world, start, plan);
      return Files(outcomes, stopped);
    }

    /** One root, once nothing has stopped the operation; `None` raises what stopped it. */
    method SwitchRoot(root: Root, seen: Option<int>, before: seq<RootOutcome>)
      returns (o: Option<RootOutcome>, stopped: Option<Reason>)
      modifies this
      ensures RootRun(o, stopped, issued) == RootSwitched(world, old(issued), root, seen, Reported(before))
    {
      stopped := None;
      match root.standing {
        case AlreadyThere => return Some(RootOutcome(root.id, AlreadySelected, [])), None;
        case NotEligible(reason) => return Some(RootOutcome(root.id, Ineligible(reason), [])), None;
        case Eligible =>
      }
      if seen.None? || (root.plan.Some? && seen.value != root.current) {
        return Some(RootOutcome(root.id, Refused(ChangedMeanwhile), [])), None;
      }
      if root.plan.None? {
        var response := Issue();
        match response {
          case Commits => return Some(RootOutcome(root.id, Switched, [])), None;
          case Refuses(reason, _) => return Some(RootOutcome(root.id, Refused(reason), [])), None;
          case Breaks(gone, _) =>
            if !Reported(before) {
              return None, None;
            }
            stopped := Some(if gone then Gone else Failed);
            return Some(RootOutcome(root.id, Refused(stopped.value), [])), stopped;
        }
      }
      var moved := SwitchThroughEquivalents(root.plan.value);
      var files: seq<FileOutcome> := [];
      match moved {
        case FilesRaise =>
          if !Reported(before) {
            return None, None;
          }
          stopped := Some(Failed);
        case Files(outcomes, stop) =>
          files, stopped := outcomes, stop;
      }
      var result := Overall(files, stopped);
      return Some(RootOutcome(root.id, result, files)), stopped;
    }

    /** One operator choice for every root, in order. `marks` is where each root's commands begin. */
    method SwitchTransferProvider(roots: seq<Root>, expected: map<int, int>) returns (r: Report, ghost marks: seq<nat>)
      modifies this
      ensures r == Reporting(Progressed(world, old(issued), roots, expected))
      ensures old(issued) <= issued && StopsAtBreak(world, old(issued), issued)
      // Which commands are issued, and what each root is told of them.
      ensures AllIssued(world, old(issued), roots, expected, marks) && marks[|marks| - 1] == issued
      ensures r.Report? ==> AllAnswered(world, old(issued), roots, expected, r.roots, marks)
      ensures r.Raises? <==> Broken(world, old(issued), issued) && !Committed(world, old(issued), issued)
      // What the report means.
      ensures r.Report? ==>
                && AllTold(world, old(issued), roots, expected, r.roots, marks) && marks[|roots|] == issued
                && (r.verdict.Unchanged? <==> !Reported(r.roots))
                && (r.verdict.Unchanged? <==> !Committed(world, old(issued), issued))
                && (r.verdict.Unchanged? ==>
                      (Durable(world, old(issued), issued) <==> HiddenRefusal(world, old(issued), issued)))
                && (r.verdict.Unchanged? <==>
                      forall o | o in r.roots ::
                        !o.result.Switched? && !o.result.Pending? && forall f | f in o.files :: !f.changed)
                && (r.verdict.Complete? <==>
                      !r.verdict.Unchanged? && forall o | o in r.roots :: o.result in {Switched, AlreadySelected})
                && (r.verdict.AwaitsProvider? <==>
                      && !r.verdict.Unchanged? && !r.verdict.Complete?
                      && forall o | o in r.roots :: o.result in {Switched, AlreadySelected, Pending})
                && (r.verdict.Complete? <==> Reported(r.roots) && AllSettled(r.roots))
                && (r.verdict.AwaitsProvider? <==> Reported(r.roots) && AllSettledOrPending(r.roots) && !AllSettled(r.roots))
      ensures r.Raises? ==>
                && issued > old(issued) && world(issued - 1).Breaks? && !Committed(world, old(issued), issued)
                && (Durable(world, old(issued), issued) <==>
                      world(issued - 1).durable || HiddenRefusal(world, old(issued), issued - 1))
    {
      hide AllTold, AllIssued, AllAnswered, Committed, Durable, HiddenRefusal, StopsAtBreak, Progressed, RootSwitched, Broken;
      ghost var start := issued;
      ghost var whole := Progressed(world, start, roots, expected);
      marks := whole.marks;
      ProgressMeant(world, start, roots, expected);
      ProgressExact(world, start, roots, expected);
      RaisesExactly(world, start, roots, expected);
      if whole.raised {
        RaisedExactly(world, start, roots, expected);
      } else {
        UnchangedExactly(world, start, roots, expected);
      }
      var outcomes: seq<RootOutcome> := [];
      var stopped: Option<Reason> := None;
      ProgressStarts(world, start, roots, expected);
      for k := 0 to |roots|
        invariant var p := Progressed(world, start, roots[..k], expected);
                  p == Progress(outcomes, stopped, false, p.marks) && issued == End(p)
      {
        var root := roots[k];
        ProgressSteps(world, start, roots, expected, k);
        if stopped.Some? {
          outcomes := outcomes + [RootOutcome(root.id, Refused(NotAttempted), [])];
        } else {
          var o: Option<RootOutcome>;
          o, stopped := SwitchRoot(root, if root.id in expected then Some(expected[root.id]) else None, outcomes);
          if o.None? {
            RaisedSticks(world, start, roots, expected, k + 1);
            return Raises, marks;
          }
          outcomes := outcomes + [o.value];
        }
      }
      assert roots[..|roots|] == roots;
      var settled := Count(outcomes, true);
      var waiting := Count(outcomes, false);
      CountAll(outcomes);
      var verdict := if !Reported(outcomes) then Unchanged
                     else if settled == |outcomes| then Complete
                     else if settled + waiting == |outcomes| then AwaitsProvider else Partial;
      return Report(verdict, outcomes), marks;
    }
  }

  lemma ProgressStarts(w: World, a: nat, roots: seq<Root>, expected: map<int, int>)
    ensures Progressed(w, a, roots[..0], expected) == Progress([], None, false, [a])
  {
  }

  lemma ProgressSteps(w: World, a: nat, roots: seq<Root>, expected: map<int, int>, k: nat)
    requires k < |roots|
    ensures Progressed(w, a, roots[..k + 1], expected)
            == Next(w, Progressed(w, a, roots[..k], expected), roots[k], Seen(expected, roots[k]))
  {
    assert roots[..k + 1][..k] == roots[..k];
  }

  /** What is raised ends the operation. */
  lemma {:induction false} RaisedSticks(w: World, a: nat, roots: seq<Root>, expected: map<int, int>, k: nat)
    requires k <= |roots| && Progressed(w, a, roots[..k], expected).raised
    ensures Progressed(w, a, roots, expected) == Progressed(w, a, roots[..k], expected)
  {
    if k == |roots| {
      assert roots[..k] == roots;
    } else {
      var before := roots[..|roots| - 1];
      assert before[..k] == roots[..k];
      RaisedSticks(w, a, before, expected, k);
    }
  }
}
