/** Coalesced publications: what is queued while a drain runs is never stranded. Queueing and the drain's own steps
    interleave at every wait. */
module CandidatePublication {
  import opened Support

  type TransferId = int

  /** The drain: not running; at its loop head; or waiting for one publication. */
  datatype Drain = Stopped | AtHead | Sending(id: TransferId)

  /** What one publication comes to: sent or failed, both of which the drain outlives, or a cancellation of the drain. */
  datatype Sent = Delivered | Failed | Cancelled

  datatype Event = Queued(id: TransferId) | Began(id: TransferId) | Lost

  /** The pending set, the drain, and everything that happened. */
  datatype State = State(pending: set<TransferId>, drain: Drain, history: seq<Event>)

  datatype Op = Queues(id: TransferId) | Turns(sent: Sent)

  lemma {:induction false} LeastExists(s: set<TransferId>)
    requires s != {}
    ensures exists m :: m in s && forall x | x in s :: m <= x
    decreases |s|
  {
    Inhabited(s);
    var x :| x in s;
    if s == {x} {
      assert x in s && forall y | y in s :: x <= y;
    } else {
      var rest := s - {x};
      assert rest != {};
      LeastExists(rest);
      var m :| m in rest && forall y | y in rest :: m <= y;
      var least := if m <= x then m else x;
      forall y | y in s ensures least <= y {
        assert y == x || y in rest;
      }
      assert least in s;
    }
  }

  ghost function Least(s: set<TransferId>): (m: TransferId)
    requires s != {}
    ensures m in s && forall x | x in s :: m <= x
  {
    LeastExists(s);
    var m :| m in s && forall x | x in s :: m <= x;
    m
  }

  /** One step: a transfer is queued, or the drain runs from one wait to the next. */
  ghost function Step(s: State, op: Op): State {
    match op
    case Queues(id) =>
      State(s.pending + {id}, if s.drain.Stopped? then AtHead else s.drain, s.history + [Queued(id)])
    case Turns(sent) =>
      if s.drain.Stopped? then s
      else if s.drain.Sending? && sent.Cancelled? then s.(drain := Stopped, history := s.history + [Lost])
      else if s.pending == {} then s.(drain := Stopped)
      else
        var id := Least(s.pending);
        State(s.pending - {id}, Sending(id), s.history + [Began(id)])
  }

  ghost function Run(s: State, ops: seq<Op>): State
    decreases |ops|
  {
    if ops == [] then s else Run(Step(s, ops[0]), ops[1..])
  }

  /** Whether `id` was queued and no publication of it has begun since. */
  function Owed(history: seq<Event>, id: TransferId): bool {
    if history == [] then false
    else
      var e := history[|history| - 1];
      if e == Queued(id) then true else if e == Began(id) then false else Owed(history[..|history| - 1], id)
  }

  /** A drain was cancelled away, and nothing was queued since. */
  function Abandoned(history: seq<Event>): bool {
    if history == [] then false
    else
      var e := history[|history| - 1];
      if e.Lost? then true else if e.Queued? then false else Abandoned(history[..|history| - 1])
  }

  /** Pending is exactly what is owed, and while anything is owed a drain runs unless it was cancelled away. */
  ghost predicate Inv(s: State) {
    && (forall id :: id in s.pending <==> Owed(s.history, id))
    && (s.drain.Stopped? ==> s.pending == {} || Abandoned(s.history))
    && (!s.drain.Stopped? ==> !Abandoned(s.history))
  }

  lemma Appended(history: seq<Event>, e: Event)
    ensures (history + [e])[..|history|] == history && (history + [e])[|history|] == e
  {
  }

  /** Nothing has happened, nothing is owed, and no drain runs. */
  lemma StartInv()
    ensures Inv(State({}, Stopped, []))
  {
  }

  /** A transfer is owed a publication exactly if, the last time it was queued or begun, it was queued. */
  lemma {:induction false} OwedMeans(history: seq<Event>, id: TransferId)
    ensures Owed(history, id) <==>
              exists i | 0 <= i < |history| :: history[i] == Queued(id) && forall k | i < k < |history| :: history[k] != Began(id)
  {
    if history != [] {
      var n := |history| - 1;
      OwedMeans(history[..n], id);
      if i :| 0 <= i < |history| && history[i] == Queued(id) && forall k | i < k < |history| :: history[k] != Began(id) {
        if i < n {
          assert history[..n][i] == Queued(id);
          assert forall k | i < k < n :: history[..n][k] == history[k];
        }
      }
    }
  }

  /** A drain is lost exactly if, the last time anything was queued or lost, a drain was lost. */
  lemma {:induction false} AbandonedMeans(history: seq<Event>)
    ensures Abandoned(history) <==>
              exists i | 0 <= i < |history| :: history[i] == Lost && forall k | i < k < |history| :: !history[k].Queued?
  {
    if history != [] {
      var n := |history| - 1;
      AbandonedMeans(history[..n]);
      if i :| 0 <= i < |history| && history[i] == Lost && forall k | i < k < |history| :: !history[k].Queued? {
        if i < n {
          assert history[..n][i] == Lost;
          assert forall k | i < k < n :: history[..n][k] == history[k];
        }
      }
    }
  }

  lemma StepInv(s: State, op: Op)
    requires Inv(s)
    ensures Inv(Step(s, op))
  {
    match op {
      case Queues(id) => Appended(s.history, Queued(id));
      case Turns(sent) =>
        if s.drain.Sending? && sent.Cancelled? {
          Appended(s.history, Lost);
        } else if !s.drain.Stopped? && s.pending != {} {
          Appended(s.history, Began(Least(s.pending)));
        }
    }
  }

  /** Over every interleaving what is queued is published afterwards: nothing is forgotten, repeats are one
      publication, and once the drain has stopped nothing is owed, unless the drain itself was cancelled and nothing
      has been queued since. */
  lemma {:induction false} RunOwes(s: State, ops: seq<Op>)
    requires Inv(s)
    ensures Inv(Run(s, ops))
    ensures var t := Run(s, ops); t.drain.Stopped? && !Abandoned(t.history) ==> forall id :: !Owed(t.history, id)
    decreases |ops|
  {
    hide Step;
    hide Inv;
    if ops != [] {
      StepInv(s, ops[0]);
      RunOwes(Step(s, ops[0]), ops[1..]);
    } else {
      Quiet(s);
    }
  }

  lemma Quiet(s: State)
    requires Inv(s)
    ensures s.drain.Stopped? && !Abandoned(s.history) ==> forall id :: !Owed(s.history, id)
  {
  }

  /** Left to itself the drain ends: every turn after the first begins one publication more. */
  lemma {:induction false} DrainEnds(s: State, ops: seq<Op>)
    requires Inv(s) && !s.drain.Stopped? && |ops| > |s.pending|
    requires forall op | op in ops :: op.Turns? && !op.sent.Cancelled?
    ensures exists k | 0 <= k <= |ops| :: var t := Run(s, ops[..k]); t.drain.Stopped? && t.pending == {}
    decreases |ops|
  {
    assert ops[0] in ops;
    var t := Step(s, ops[0]);
    assert ops[..1] == [ops[0]] && [ops[0]][1..] == [];
    if s.pending == {} {
      assert Run(s, ops[..1]) == Run(t, []);
    } else {
      StepInv(s, ops[0]);
      DrainEnds(t, ops[1..]);
      var k :| 0 <= k <= |ops[1..]| && (var u := Run(t, ops[1..][..k]); u.drain.Stopped? && u.pending == {});
      assert ops[..k + 1][1..] == ops[1..][..k];
      assert ops[..k + 1][0] == ops[0];
      assert Run(s, ops[..k + 1]) == Run(t, ops[1..][..k]);
    }
  }

  // ---- the drain itself ---------------------------------------------------------------------------

  class Publisher {
    var pending: set<TransferId>

    /** One drain nothing interleaves with: every pending transfer once, in ascending order; a failed publication
        stops nothing. */
    method DrainPublications(fails: TransferId -> bool) returns (begun: seq<TransferId>, failures: nat)
      modifies this
      ensures pending == {} && Elements(begun) == old(pending)
      ensures forall i, j | 0 <= i < j < |begun| :: begun[i] < begun[j]
      ensures failures <= |begun| && (failures == 0 <==> forall id | id in begun :: !fails(id))
    {
      begun, failures := [], 0;
      while pending != {}
        invariant Elements(begun) + pending == old(pending)
        invariant forall i, j | 0 <= i < j < |begun| :: begun[i] < begun[j]
        invariant forall i, x | 0 <= i < |begun| && x in pending :: begun[i] < x
        invariant failures <= |begun| && (failures == 0 <==> forall id | id in begun :: !fails(id))
        decreases pending
      {
        var id := TakeLeast();
        assert Elements(begun + [id]) == Elements(begun) + {id};
        assert forall x :: x in begun + [id] <==> x in begun || x == id;
        failures := failures + if fails(id) then 1 else 0;
        begun := begun + [id];
      }
    }

    method TakeLeast() returns (id: TransferId)
      requires pending != {}
      modifies this
      ensures id in old(pending) && pending == old(pending) - {id} && forall x | x in pending :: id < x
    {
      Inhabited(pending);
      id :| id in pending;
      var left := pending;
      while left != {}
        invariant pending == old(pending) && left <= pending && id in pending
        invariant forall x | x in pending && x !in left :: id <= x
        decreases left
      {
        Inhabited(left);
        var x :| x in left;
        left := left - {x};
        if x < id {
          id := x;
        }
      }
      pending := pending - {id};
    }
  }
}
