/** Whether the list offers a common source to a transfer's remaining files: the relational query, the chooser it
    stands for, and how far they agree. */
module SourceActions {
  import opened Support

  type FileId = nat
  type Candidate = int
  type Provider = int
  type Host = int

  /** Completed; in a state a candidate switch applies to; or in neither. */
  datatype Lifecycle = Completed | Switchable | Fixed
  /** A current file and the candidate it is selected on, if any. */
  datatype File = File(state: Lifecycle, selected: Option<Candidate>)
  /** A current candidate of a file, and its usable source host, if it names one. */
  datatype Binding = Binding(file: FileId, candidate: Candidate, provider: Provider, host: Option<Host>)
  /** One transfer's current files and their bindings; a file has a candidate once. */
  datatype Transfer = Transfer(files: map<FileId, File>, bindings: set<Binding>)

  ghost predicate Stored(t: Transfer) {
    && (forall b | b in t.bindings :: b.file in t.files)
    && forall b, c | b in t.bindings && c in t.bindings :: b.file == c.file && b.candidate == c.candidate ==> b == c
  }

  // ---- the query ----------------------------------------------------------------------------------

  /** Bindings that name a host, of current files. */
  function MemberHosts(t: Transfer): set<Binding> {
    set b | b in t.bindings && b.file in t.files && b.host.Some?
  }

  function FilesOn(t: Transfer, h: Host): set<FileId> {
    set b | b in MemberHosts(t) && b.host == Some(h) :: b.file
  }

  /** Hosts that as many files name as there are files. */
  function CommonHosts(t: Transfer): set<Host> {
    set b | b in MemberHosts(t) && |FilesOn(t, b.host.value)| == |t.files| :: b.host.value
  }

  /** A host and provider through which some switchable file would move to another candidate. */
  function Movement(t: Transfer): set<(Host, Provider)> {
    set b | b in MemberHosts(t) && t.files[b.file].state == Switchable && t.files[b.file].selected != Some(b.candidate)
      :: (b.host.value, b.provider)
  }

  /** Hosts some unfinished file that cannot switch is not selected on. */
  function Vetoes(t: Transfer): set<Host> {
    set b | b in MemberHosts(t) && t.files[b.file].state == Fixed && t.files[b.file].selected != Some(b.candidate)
      :: b.host.value
  }

  /** The existence query: some common host moves a file through an enabled provider and is not vetoed. */
  predicate ActionableSource(t: Transfer, disabled: set<Provider>) {
    exists m | m in Movement(t) :: m.0 in CommonHosts(t) && m.1 !in disabled && m.0 !in Vetoes(t)
  }

  /** The same query at host granularity. */
  function ActionableHosts(t: Transfer, disabled: set<Provider>): set<Host> {
    set m | m in Movement(t) && m.0 in CommonHosts(t) && m.1 !in disabled && m.0 !in Vetoes(t) :: m.0
  }

  function Remaining(t: Transfer): set<FileId> {
    set f | f in t.files && t.files[f].state == Switchable
  }

  /** The list's count of files a common source could still move. */
  function GroupRemainingCount(t: Transfer, disabled: set<Provider>): nat {
    if ActionableSource(t, disabled) then |Remaining(t)| else 0
  }

  function CandidatesOf(t: Transfer, f: FileId): set<Candidate> {
    set b | b in t.bindings && b.file == f :: b.candidate
  }

  function Movable(t: Transfer): set<FileId> {
    set f | f in t.files && t.files[f].state == Switchable && |CandidatesOf(t, f)| >= 2
  }

  datatype Scope = NoScope | OneFile(candidates: nat) | Group(targets: nat)

  /** The list's candidate-action scope. */
  ghost function ListScope(t: Transfer, disabled: set<Provider>): Scope {
    if |Movable(t)| == 1 then
      var f :| f in Movable(t);
      OneFile(|CandidatesOf(t, f)|)
    else if |Movable(t)| > 1 && |ActionableHosts(t, disabled)| > 0 then Group(|ActionableHosts(t, disabled)|)
    else NoScope
  }

  // ---- the chooser --------------------------------------------------------------------------------

  /** One source of a file as Details presents it. */
  datatype Entry = Entry(host: Host, candidate: Candidate, selected: bool, eligible: bool)

  function Eligible(f: File, c: Candidate): bool {
    f.selected != Some(c) && f.state == Switchable
  }

  function Entries(t: Transfer, f: FileId): set<Entry>
    requires f in t.files
  {
    set b | b in t.bindings && b.file == f && b.host.Some?
      :: Entry(b.host.value, b.candidate, t.files[f].selected == Some(b.candidate), Eligible(t.files[f], b.candidate))
  }

  ghost predicate Unfinished(t: Transfer, f: FileId) {
    f in t.files && t.files[f].state != Completed
  }

  /** A host every file, finished or not, has an entry for. */
  ghost predicate IsCommon(t: Transfer, h: Host) {
    t.files.Keys != {} && forall f | f in t.files :: exists e | e in Entries(t, f) :: e.host == h
  }

  ghost predicate SelectedOn(t: Transfer, f: FileId, h: Host)
    requires f in t.files
  {
    exists e | e in Entries(t, f) :: e.selected && e.host == h
  }

  /** The one common host every unfinished file is selected on. */
  ghost predicate IsActive(t: Transfer, h: Host) {
    && IsCommon(t, h) && (exists f :: Unfinished(t, f))
    && forall f | Unfinished(t, f) :: SelectedOn(t, f, h)
  }

  /** A common host every unfinished file is selected on or may switch to. */
  ghost predicate ChooserActionable(t: Transfer, h: Host) {
    && IsCommon(t, h) && (exists f :: Unfinished(t, f))
    && forall f | Unfinished(t, f) :: exists e | e in Entries(t, f) :: e.host == h && (e.selected || e.eligible)
  }

  /** The hosts the chooser offers as a movement. */
  ghost predicate ChooserMoves(t: Transfer, h: Host) {
    ChooserActionable(t, h) && !IsActive(t, h)
  }

  /** A file with a switchable choice among at least two candidates. */
  ghost predicate ChooserMovable(t: Transfer, f: FileId) {
    f in t.files && |CandidatesOf(t, f)| > 1 && exists c | c in CandidatesOf(t, f) :: Eligible(t.files[f], c)
  }

  // ---- agreement ----------------------------------------------------------------------------------

  lemma SameSize(a: set<FileId>, b: set<FileId>)
    requires a <= b
    ensures |a| == |b| <==> a == b
  {
    assert |b - a| == |b| - |a|;
  }

  /** Counting files per host is asking every file. */
  lemma CommonIsEveryFile(t: Transfer, h: Host)
    requires Stored(t)
    ensures h in CommonHosts(t) <==> IsCommon(t, h)
  {
    assert FilesOn(t, h) <= t.files.Keys;
    SameSize(FilesOn(t, h), t.files.Keys);
    if h in CommonHosts(t) {
      forall f | f in t.files ensures exists e | e in Entries(t, f) :: e.host == h {
        assert f in FilesOn(t, h);
        var b :| b in MemberHosts(t) && b.host == Some(h) && b.file == f;
        var e := Entry(h, b.candidate, t.files[f].selected == Some(b.candidate), Eligible(t.files[f], b.candidate));
        assert e in Entries(t, f);
      }
    }
    if IsCommon(t, h) {
      forall f | f in t.files ensures f in FilesOn(t, h) {
        var e :| e in Entries(t, f) && e.host == h;
        var b :| b in t.bindings && b.file == f && b.host == Some(h);
        assert b in MemberHosts(t);
      }
      var f :| f in t.files.Keys;
      assert f in FilesOn(t, h);
      var b :| b in MemberHosts(t) && b.host == Some(h) && b.file == f;
    }
  }

  /** What the list promises of a host: an enabled provider moves some switchable file there, and every unfinished
      file that cannot switch is selected on it and has no other candidate there. */
  ghost predicate Offers(t: Transfer, disabled: set<Provider>, h: Host) {
    && IsCommon(t, h)
    && (exists b | b in t.bindings :: b.host == Some(h) && b.provider !in disabled
          && b.file in t.files && t.files[b.file].state == Switchable && t.files[b.file].selected != Some(b.candidate))
    && forall b | b in t.bindings && b.host == Some(h) && b.file in t.files && t.files[b.file].state == Fixed ::
         t.files[b.file].selected == Some(b.candidate)
  }

  lemma ActionableMeans(t: Transfer, disabled: set<Provider>, h: Host)
    requires Stored(t)
    ensures h in ActionableHosts(t, disabled) <==> Offers(t, disabled, h)
  {
    CommonIsEveryFile(t, h);
    if h in ActionableHosts(t, disabled) {
      var m :| m in Movement(t) && m.0 == h && m.1 !in disabled && h in CommonHosts(t) && h !in Vetoes(t);
      var b :| b in MemberHosts(t) && t.files[b.file].state == Switchable && t.files[b.file].selected != Some(b.candidate)
            && (b.host.value, b.provider) == m;
      forall c | c in t.bindings && c.host == Some(h) && c.file in t.files && t.files[c.file].state == Fixed
        ensures t.files[c.file].selected == Some(c.candidate)
      {
        assert c in MemberHosts(t);
      }
    }
    if Offers(t, disabled, h) {
      var b :| b in t.bindings && b.host == Some(h) && b.provider !in disabled
            && b.file in t.files && t.files[b.file].state == Switchable && t.files[b.file].selected != Some(b.candidate);
      assert b in MemberHosts(t);
      assert (h, b.provider) in Movement(t);
    }
  }

  /** The list counts remaining files exactly when some host is offered: a host common to every file, with an enabled
      provider, which moves at least one switchable file and leaves no unfinished file behind. */
  lemma CountIsSound(t: Transfer, disabled: set<Provider>)
    requires Stored(t)
    ensures GroupRemainingCount(t, disabled) > 0 <==> exists h :: Offers(t, disabled, h)
    ensures GroupRemainingCount(t, disabled) in {0, |Remaining(t)|}
  {
    if ActionableSource(t, disabled) {
      var m :| m in Movement(t) && m.0 in CommonHosts(t) && m.1 !in disabled && m.0 !in Vetoes(t);
      assert m.0 in ActionableHosts(t, disabled);
      ActionableMeans(t, disabled, m.0);
      var b :| b in MemberHosts(t) && t.files[b.file].state == Switchable;
      assert b.file in Remaining(t);
    }
    if h :| Offers(t, disabled, h) {
      ActionableMeans(t, disabled, h);
    }
  }

  /** What it counts is every file that may switch. */
  lemma RemainingMeans(t: Transfer, disabled: set<Provider>)
    ensures Remaining(t) == set f | f in t.files && t.files[f].state == Switchable
    ensures GroupRemainingCount(t, disabled) > 0 ==>
              GroupRemainingCount(t, disabled) == |set f | f in t.files && t.files[f].state == Switchable|
  {
  }

  /** The file may still be moved: its state allows it, and at least two candidates are bound to it. */
  ghost predicate MayMove(t: Transfer, f: FileId) {
    && f in t.files && t.files[f].state == Switchable
    && exists b, c | b in t.bindings && c in t.bindings :: b.file == f && c.file == f && b.candidate != c.candidate
  }

  lemma MovableMeans(t: Transfer, f: FileId)
    ensures f in Movable(t) <==> MayMove(t, f)
  {
    var cs := CandidatesOf(t, f);
    if |cs| >= 2 {
      TwoCandidates(cs, None);
      var c :| c in cs;
      TwoCandidates(cs, Some(c));
      var d :| d in cs && Some(c) != Some(d);
      var b, e :| b in t.bindings && b.file == f && b.candidate == c && e in t.bindings && e.file == f && e.candidate == d;
    }
    if b, c :| b in t.bindings && c in t.bindings && b.file == f && c.file == f && b.candidate != c.candidate {
      AtLeastTwo(cs, b.candidate, c.candidate);
    }
  }

  lemma AtLeastTwo(cs: set<Candidate>, c: Candidate, d: Candidate)
    requires c in cs && d in cs && c != d
    ensures |cs| >= 2
  {
    assert |cs - {c} - {d}| == |cs| - 2;
  }

  lemma ScopeIs(t: Transfer, disabled: set<Provider>)
    ensures var scope := ListScope(t, disabled);
            && (scope.OneFile? <==> |Movable(t)| == 1)
            && (scope.Group? <==> |Movable(t)| > 1 && |ActionableHosts(t, disabled)| > 0)
            && (scope.Group? ==> scope.targets == |ActionableHosts(t, disabled)|)
            && (scope.OneFile? ==> exists f :: f in Movable(t) && scope.candidates == |CandidatesOf(t, f)|)
  {
    hide ActionableHosts, Movable, CandidatesOf;
  }

  /** The list shows one file's candidates exactly where exactly one file may be moved. */
  lemma OneFileExactly(t: Transfer, disabled: set<Provider>)
    ensures ListScope(t, disabled).OneFile? <==> exists f :: MayMove(t, f) && forall g | MayMove(t, g) :: g == f
    ensures ListScope(t, disabled).OneFile? ==>
              exists f :: MayMove(t, f) && ListScope(t, disabled).candidates == |CandidatesOf(t, f)|
  {
    hide MayMove, ActionableHosts, Movable, ListScope, CandidatesOf;
    ScopeIs(t, disabled);
    OneMoves(t);
    if |Movable(t)| == 1 {
      var f :| f in Movable(t) && ListScope(t, disabled).candidates == |CandidatesOf(t, f)|;
      MovableMeans(t, f);
    }
  }

  /** It shows a group exactly where several files may be moved and some host is offered. */
  lemma GroupExactly(t: Transfer, disabled: set<Provider>)
    requires Stored(t)
    ensures ListScope(t, disabled).Group? <==>
              (exists f, g :: MayMove(t, f) && MayMove(t, g) && f != g) && exists h :: Offers(t, disabled, h)
  {
    hide Offers, MayMove, ActionableHosts, Movable, ListScope;
    ScopeIs(t, disabled);
    SeveralMove(t);
    SomeOffered(t, disabled);
  }

  lemma OneMoves(t: Transfer)
    ensures |Movable(t)| == 1 <==> exists f :: MayMove(t, f) && forall g | MayMove(t, g) :: g == f
  {
    hide MayMove, Movable;
    forall f ensures f in Movable(t) <==> MayMove(t, f) {
      MovableMeans(t, f);
    }
    HowMany(Movable(t));
  }

  lemma SeveralMove(t: Transfer)
    ensures |Movable(t)| > 1 <==> exists f, g :: MayMove(t, f) && MayMove(t, g) && f != g
  {
    hide MayMove, Movable;
    forall f ensures f in Movable(t) <==> MayMove(t, f) {
      MovableMeans(t, f);
    }
    HowMany(Movable(t));
  }

  lemma SomeOffered(t: Transfer, disabled: set<Provider>)
    requires Stored(t)
    ensures |ActionableHosts(t, disabled)| > 0 <==> exists h :: Offers(t, disabled, h)
  {
    hide Offers, ActionableHosts;
    forall h ensures h in ActionableHosts(t, disabled) <==> Offers(t, disabled, h) {
      ActionableMeans(t, disabled, h);
    }
    Inhabited(ActionableHosts(t, disabled));
  }

  /** A group's targets are the hosts offered, each counted once; a file's candidates are those bound to it. */
  lemma ScopeCounts(t: Transfer, disabled: set<Provider>, hosts: set<Host>, f: FileId)
    requires Stored(t) && forall h :: h in hosts <==> Offers(t, disabled, h)
    ensures ListScope(t, disabled).Group? ==> ListScope(t, disabled).targets == |hosts|
    ensures CandidatesOf(t, f) == set b | b in t.bindings && b.file == f :: b.candidate
  {
    hide Offers, ActionableHosts, Movable, ListScope;
    ScopeIs(t, disabled);
    forall h ensures h in ActionableHosts(t, disabled) <==> h in hosts {
      ActionableMeans(t, disabled, h);
    }
    assert ActionableHosts(t, disabled) == hosts;
  }

  lemma OnlyOne(s: set<FileId>, f: FileId, g: FileId)
    requires |s| <= 1 && f in s && g in s
    ensures f == g
  {
    assert |s - {f}| == |s| - 1;
    assert s - {f} == {};
  }

  lemma HowMany(s: set<FileId>)
    ensures |s| == 1 <==> exists f :: f in s && forall g | g in s :: g == f
    ensures |s| > 1 <==> exists f, g :: f in s && g in s && f != g
  {
    Inhabited(s);
    if |s| > 0 {
      var f :| f in s;
      assert |s - {f}| == |s| - 1;
      Inhabited(s - {f});
      if |s| == 1 {
        forall g | g in s ensures g == f {
          OnlyOne(s, f, g);
        }
      } else {
        var g :| g in s - {f};
        assert g in s && g != f;
      }
    }
    if |s| <= 1 {
      forall f, g | f in s && g in s ensures f == g {
        OnlyOne(s, f, g);
      }
    }
  }

  /** The existence query, the host count and the scope classifier read the same thing. */
  lemma ExistenceIsCount(t: Transfer, disabled: set<Provider>)
    ensures ActionableSource(t, disabled) <==> |ActionableHosts(t, disabled)| > 0
    ensures ListScope(t, disabled).Group? <==> |Movable(t)| > 1 && ActionableSource(t, disabled)
    ensures ListScope(t, disabled).Group? ==> ListScope(t, disabled).targets == |ActionableHosts(t, disabled)|
  {
    if ActionableSource(t, disabled) {
      var m :| m in Movement(t) && m.0 in CommonHosts(t) && m.1 !in disabled && m.0 !in Vetoes(t);
      assert m.0 in ActionableHosts(t, disabled);
    }
    assert ActionableHosts(t, disabled) != {} ==> ActionableSource(t, disabled);
  }

  /** The list is never more permissive than the chooser's rule: an offered host is one the chooser can converge to. */
  lemma OfferedIsActionable(t: Transfer, disabled: set<Provider>, h: Host)
    requires Stored(t) && h in ActionableHosts(t, disabled)
    ensures ChooserActionable(t, h)
  {
    ActionableMeans(t, disabled, h);
    forall f | Unfinished(t, f)
      ensures exists e | e in Entries(t, f) :: e.host == h && (e.selected || e.eligible)
    {
      var e :| e in Entries(t, f) && e.host == h;
      var b :| b in t.bindings && b.file == f && b.host == Some(h)
            && e == Entry(h, b.candidate, t.files[f].selected == Some(b.candidate), Eligible(t.files[f], b.candidate));
    }
    var b :| b in t.bindings && b.file in t.files && t.files[b.file].state == Switchable;
    assert Unfinished(t, b.file);
  }

  /** A host the chooser can converge to, by the bindings alone: every file has a source there, some file is unfinished, and
      every unfinished file that cannot switch is selected on it. */
  lemma ChooserActionableMeans(t: Transfer, h: Host)
    ensures ChooserActionable(t, h) <==>
              && t.files.Keys != {}
              && (forall f | f in t.files :: exists b | b in t.bindings :: b.file == f && b.host == Some(h))
              && (exists f | f in t.files :: t.files[f].state != Completed)
              && forall f | f in t.files && t.files[f].state == Fixed ::
                   exists b | b in t.bindings :: b.file == f && b.host == Some(h) && t.files[f].selected == Some(b.candidate)
  {
    hide Entries;
    forall f | f in t.files
      ensures (exists e | e in Entries(t, f) :: e.host == h) <==> exists b | b in t.bindings :: b.file == f && b.host == Some(h)
      ensures (exists e | e in Entries(t, f) :: e.host == h && (e.selected || e.eligible)) <==>
                exists b | b in t.bindings ::
                  b.file == f && b.host == Some(h)
                  && (t.files[f].selected == Some(b.candidate) || t.files[f].state == Switchable)
    {
      EntriesMean(t, f, h);
    }
    forall f ensures Unfinished(t, f) <==> f in t.files && t.files[f].state in {Switchable, Fixed} {
    }
  }

  lemma EntriesMean(t: Transfer, f: FileId, h: Host)
    requires f in t.files
    ensures (exists e | e in Entries(t, f) :: e.host == h) <==> exists b | b in t.bindings :: b.file == f && b.host == Some(h)
    ensures (exists e | e in Entries(t, f) :: e.host == h && (e.selected || e.eligible)) <==>
              exists b | b in t.bindings ::
                b.file == f && b.host == Some(h) && (t.files[f].selected == Some(b.candidate) || t.files[f].state == Switchable)
  {
    forall b | b in t.bindings && b.file == f && b.host == Some(h)
      ensures Entry(h, b.candidate, t.files[f].selected == Some(b.candidate), Eligible(t.files[f], b.candidate)) in Entries(t, f)
    {
    }
  }

  /** How much stricter the list is than the chooser: it offers a host exactly if the chooser can converge to it, an enabled
      provider moves a switchable file there, and no unfinished file that cannot switch has another candidate there. */
  lemma OfferedExactly(t: Transfer, disabled: set<Provider>, h: Host)
    requires Stored(t)
    ensures h in ActionableHosts(t, disabled) <==>
              && ChooserActionable(t, h)
              && (exists b | b in t.bindings ::
                    && b.host == Some(h) && b.provider !in disabled && t.files[b.file].state == Switchable
                    && t.files[b.file].selected != Some(b.candidate))
              && forall b | b in t.bindings && b.host == Some(h) && t.files[b.file].state == Fixed ::
                   t.files[b.file].selected == Some(b.candidate)
  {
    hide ActionableHosts, ChooserActionable;
    ActionableMeans(t, disabled, h);
    if h in ActionableHosts(t, disabled) {
      OfferedIsActionable(t, disabled, h);
    }
    ChooserCommon(t, h);
  }

  lemma ChooserCommon(t: Transfer, h: Host)
    ensures ChooserActionable(t, h) ==> IsCommon(t, h)
  {
  }

  /** An offered host is missing from the chooser's movements exactly when every unfinished file is selected on it
      already. */
  lemma OfferedButActive(t: Transfer, disabled: set<Provider>, h: Host)
    requires Stored(t) && h in ActionableHosts(t, disabled)
    ensures ChooserMoves(t, h) <==> exists f :: Unfinished(t, f) && !SelectedOn(t, f, h)
  {
    OfferedIsActionable(t, disabled, h);
  }

  /** That takes one file with two candidates on the host: without such a file every offered host is a movement. */
  lemma OneCandidatePerHost(t: Transfer, disabled: set<Provider>, h: Host)
    requires Stored(t) && h in ActionableHosts(t, disabled)
    requires forall b, c | b in t.bindings && c in t.bindings :: b.file == c.file && b.host == c.host == Some(h) ==> b == c
    ensures ChooserMoves(t, h)
  {
    hide ActionableHosts;
    hide ChooserActionable;
    hide IsCommon;
    ActionableMeans(t, disabled, h);
    OfferedIsActionable(t, disabled, h);
    var b :| b in t.bindings && b.host == Some(h) && b.file in t.files && t.files[b.file].state == Switchable
          && t.files[b.file].selected != Some(b.candidate);
    assert Unfinished(t, b.file);
    forall e | e in Entries(t, b.file) && e.host == h ensures !e.selected {
      var c :| c in t.bindings && c.file == b.file && c.host == Some(h)
            && e == Entry(h, c.candidate, t.files[b.file].selected == Some(c.candidate), Eligible(t.files[b.file], c.candidate));
      assert c == b;
    }
  }

  /** Which files may be moved at all is one question with one answer. */
  lemma MovableAgrees(t: Transfer, f: FileId)
    requires Stored(t)
    ensures f in Movable(t) <==> ChooserMovable(t, f)
  {
    if f in Movable(t) {
      TwoCandidates(CandidatesOf(t, f), t.files[f].selected);
    }
  }

  lemma TwoCandidates(cs: set<Candidate>, selected: Option<Candidate>)
    requires |cs| >= 2
    ensures exists c | c in cs :: selected != Some(c)
  {
    var others := cs - (if selected.Some? then {selected.value} else {});
    assert |others| >= |cs| - 1 by {
      if selected.Some? && selected.value in cs {
        assert cs == others + {selected.value};
      } else {
        assert cs == others;
      }
    }
    Inhabited(others);
    var c :| c in others;
  }

  // ---- where they differ --------------------------------------------------------------------------

  /** Two files, both downloading from one host through one provider, which a second provider offers too. */
  const TWO_PROVIDERS := Transfer(
    map[1 := File(Switchable, Some(10)), 2 := File(Switchable, Some(20))],
    {Binding(1, 10, 100, Some(7)), Binding(1, 11, 101, Some(7)), Binding(2, 20, 100, Some(7)), Binding(2, 21, 101, Some(7))})

  lemma AllOnOneHost(f: FileId)
    requires f in TWO_PROVIDERS.files
    ensures Entries(TWO_PROVIDERS, f) ==
              {Entry(7, if f == 1 then 10 else 20, true, false), Entry(7, if f == 1 then 11 else 21, false, true)}
  {
    var t := TWO_PROVIDERS;
    var a, b := Binding(f, if f == 1 then 10 else 20, 100, Some(7)), Binding(f, if f == 1 then 11 else 21, 101, Some(7));
    assert a in t.bindings && b in t.bindings && forall c | c in t.bindings && c.file == f :: c == a || c == b;
  }

  lemma AllActive()
    ensures IsActive(TWO_PROVIDERS, 7) && forall h | IsCommon(TWO_PROVIDERS, h) :: h == 7
  {
    var t := TWO_PROVIDERS;
    assert t.files[1].state == Switchable;
    assert Unfinished(t, 1);
    forall f | f in t.files ensures SelectedOn(t, f, 7) {
      AllOnOneHost(f);
      assert Entry(7, if f == 1 then 10 else 20, true, false) in Entries(t, f);
    }
    assert 1 in t.files;
    AllOnOneHost(1);
  }

  /** The list offers the host as a group switch, and the chooser has no movement to show. */
  lemma ListOffersActiveHost()
    ensures Stored(TWO_PROVIDERS)
    ensures ListScope(TWO_PROVIDERS, {}).Group? && GroupRemainingCount(TWO_PROVIDERS, {}) > 0
    ensures forall h :: !ChooserMoves(TWO_PROVIDERS, h)
  {
    var t := TWO_PROVIDERS;
    hide Entries;
    hide ListScope;
    hide GroupRemainingCount;
    AllActive();
    assert Binding(1, 11, 101, Some(7)) in t.bindings;
    assert Offers(t, {}, 7);
    ActionableMeans(t, {}, 7);
    CountIsSound(t, {});
    ExistenceIsCount(t, {});
    BothMovable();
    assert 7 in ActionableHosts(t, {});
  }

  lemma BothMovable()
    ensures |Movable(TWO_PROVIDERS)| > 1
  {
    var t := TWO_PROVIDERS;
    assert Binding(1, 10, 100, Some(7)) in t.bindings && Binding(1, 11, 101, Some(7)) in t.bindings;
    assert Binding(2, 20, 100, Some(7)) in t.bindings && Binding(2, 21, 101, Some(7)) in t.bindings;
    assert CandidatesOf(t, 1) == {10, 11} && CandidatesOf(t, 2) == {20, 21};
    assert Movable(t) == {1, 2};
  }
}
