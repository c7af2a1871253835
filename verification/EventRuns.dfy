/** The event hub over whole runs: any interleaving of publications, session changes, role changes and streams. */
module EventRuns {
  import opened Support
  import opened EventHub

  /** A frame with what its connection's principal might read at that moment. */
  datatype Record = Record(frame: Frame, caps: set<Capability>)
  /** A turn after which the stream goes on: when, what it did, what its principal might read then, which of the frames
      taken it concerned, the frame it was about, and whether the connection was authorized. */
  datatype Beat = Beat(at: int, turn: Turn, caps: set<Capability>, source: Option<nat>, frame: Option<Frame>, authorized: bool)
  /** The turn that ended a stream: whether it said so, whether the client was gone, the frame it was about, and whether
      the connection was authorized. */
  datatype Closing = Closing(told: bool, gone: bool, frame: Option<Frame>, authorized: bool)
  /** A connection's history: what was queued for it, what its stream took from that, what it took after an eviction,
      its turns (the opening is the first), the turn that ended it, whether it was evicted, and what it was to be told of
      then. */
  datatype History = History(accepted: seq<Record>, taken: seq<Record>, ended: seq<Frame>, turns: seq<Beat>,
                             closing: Option<Closing>, evicted: bool, last: seq<Frame>)
  datatype Conn = Conn(link: Link, history: History)
  datatype World = World(conns: map<Id, Conn>, caps: map<Id, set<Capability>>, authorized: set<Id>, clock: int)

  datatype Event =
    | Opens(id: Id)
    | Publishes(frame: Frame)
    | ChangesSessions(affected: set<Id>, ended: bool)
    | Turns(id: Id, gone: bool)
    | Rebinds(id: Id, granted: set<Capability>)
    | Admits(admitted: set<Id>)
    | Passes(seconds: nat)

  /** What a publisher may publish. */
  predicate Publishable(frame: Frame) {
    frame.Text? || frame.Gated? || frame.AccountChanged?
  }

  function CapsIn(w: World, id: Id): set<Capability> {
    if id in w.caps then w.caps[id] else {}
  }

  function Opened(now: int): Conn {
    Conn(Link([], true, now + HEARTBEAT, true), History([], [], [], [Beat(now, Waits, {}, None, None, true)], None, false, []))
  }

  function Noted(link: Link, history: History, frame: Frame, last: seq<Frame>, caps: set<Capability>): History {
    if !link.subscribed then history
    else if |link.queue| < CAPACITY then history.(accepted := history.accepted + [Record(frame, caps)])
    else history.(evicted := true, last := last)
  }

  /** The frame a turn takes from the queue, if any. */
  function Took(link: Link, now: int, gone: bool): seq<Frame> {
    if !gone && now < link.nextPing && link.queue != [] then [link.queue[0]] else []
  }

  function Turned(link: Link, history: History, now: int, gone: bool, authorized: bool, caps: set<Capability>): History {
    var turn, took := Take(link, now, gone, authorized, caps).1, Took(link, now, gone);
    var source := if took == [] || history.evicted then None else Some(|history.taken|);
    var frame := if gone then None else if took != [] then Some(took[0]) else if now < link.nextPing then None else Some(Ping);
    var noted := if took == [] then history
                 else if history.evicted then history.(ended := history.ended + took)
                 else history.(taken := history.taken + [Record(took[0], caps)]);
    if turn.Ends? then noted.(closing := Some(Closing(turn.told, gone, frame, authorized)))
    else noted.(turns := noted.turns + [Beat(now, turn, caps, source, frame, authorized)])
  }

  function PutTo(c: Conn, frame: Frame, last: seq<Frame>, caps: set<Capability>): Conn {
    Conn(Put(c.link, frame, last), Noted(c.link, c.history, frame, last, caps))
  }

  /** What one event makes of one connection. */
  function ConnAfter(w: World, e: Event, id: Id): Conn
    requires id in w.conns
  {
    var c, caps := w.conns[id], CapsIn(w, id);
    match e
    case Publishes(frame) => if Publishable(frame) && Permits(frame, caps) then PutTo(c, frame, [], caps) else c
    case ChangesSessions(affected, ended) =>
      var frame := if ended then SessionEnded else AccountChanged;
      if id in affected then PutTo(c, frame, [frame], caps) else c
    case Turns(who, gone) =>
      if who == id && c.link.open
      then Conn(Take(c.link, w.clock, gone, id in w.authorized, caps).0,
                Turned(c.link, c.history, w.clock, gone, id in w.authorized, caps))
      else c
    case _ => c
  }

  function Step(w: World, e: Event): World {
    match e
    case Opens(id) => if id in w.conns then w else w.(conns := w.conns[id := Opened(w.clock)])
    case Rebinds(id, granted) => w.(caps := w.caps[id := granted])
    case Admits(admitted) => w.(authorized := admitted)
    case Passes(seconds) => w.(clock := w.clock + seconds)
    case _ => w.(conns := map id | id in w.conns :: ConnAfter(w, e, id))
  }

  function Run(w: World, events: seq<Event>): World
    decreases |events|
  {
    if events == [] then w else Run(Step(w, events[0]), events[1..])
  }

  // ---- the hub does what the events say -------------------------------------------------------------

  /** The hub holds the links, capabilities and admissions of the world. */
  ghost predicate Mirrors(hub: Hub, w: World)
    reads hub
  {
    && hub.links.Keys == w.conns.Keys && hub.caps == w.caps && hub.authorized == w.authorized
    && forall id | id in w.conns :: hub.links[id] == w.conns[id].link
  }

  /** The link an event leaves a connection. */
  lemma LinkAfter(w: World, e: Event, id: Id)
    requires id in w.conns
    ensures var link, caps, after := w.conns[id].link, CapsIn(w, id), ConnAfter(w, e, id).link;
            && (e.Publishes? && Publishable(e.frame) ==>
                  after == if Permits(e.frame, caps) then Put(link, e.frame, []) else link)
            && (e.ChangesSessions? ==>
                  var frame := if e.ended then SessionEnded else AccountChanged;
                  after == if id in e.affected then Put(link, frame, [frame]) else link)
            && (e.Turns? && link.open ==>
                  after == if id == e.id then Take(link, w.clock, e.gone, id in w.authorized, caps).0 else link)
            && (e.Publishes? && !Publishable(e.frame) ==> after == link)
            && (e.Turns? && (e.id != id || !link.open) ==> after == link)
  {
  }

  lemma StepConns(w: World, e: Event)
    requires e.Publishes? || e.ChangesSessions? || e.Turns?
    ensures var after := Step(w, e);
            && after.conns.Keys == w.conns.Keys && after.caps == w.caps && after.authorized == w.authorized
            && after.clock == w.clock
            && forall id | id in w.conns :: after.conns[id] == ConnAfter(w, e, id)
  {
  }

  method Publishing(hub: Hub, frame: Frame, ghost w: World)
    requires Mirrors(hub, w) && Publishable(frame)
    modifies hub
    ensures Mirrors(hub, Step(w, Publishes(frame)))
  {
    hide ConnAfter, Put, Step, Publishable, Permits;
    hub.Broadcast(frame);
    StepConns(w, Publishes(frame));
    forall id | id in w.conns ensures hub.links[id] == ConnAfter(w, Publishes(frame), id).link {
      LinkAfter(w, Publishes(frame), id);
    }
  }

  method ChangingSessions(hub: Hub, affected: set<Id>, ended: bool, ghost w: World)
    requires Mirrors(hub, w)
    modifies hub
    ensures Mirrors(hub, Step(w, ChangesSessions(affected, ended)))
  {
    hide ConnAfter, Put, Step;
    hub.SessionsEnded(affected, ended);
    StepConns(w, ChangesSessions(affected, ended));
    forall id | id in w.conns ensures hub.links[id] == ConnAfter(w, ChangesSessions(affected, ended), id).link {
      LinkAfter(w, ChangesSessions(affected, ended), id);
    }
  }

  method Turning(hub: Hub, id: Id, now: int, gone: bool, ghost w: World) returns (turn: Turn)
    requires Mirrors(hub, w) && now == w.clock && id in hub.links && hub.links[id].open
    modifies hub
    ensures Mirrors(hub, Step(w, Turns(id, gone))) && id in Step(w, Turns(id, gone)).conns
    ensures var before, after := w.conns[id].history, Step(w, Turns(id, gone)).conns[id].history;
            if turn.Ends? then after.closing.Some? && after.closing.value.told == turn.told && after.turns == before.turns
            else |after.turns| == |before.turns| + 1 && after.turns[|before.turns|].turn == turn
  {
    hide ConnAfter, Take, Step;
    turn := hub.Advance(id, now, gone);
    TurnRecorded(w, id, gone);
    StepConns(w, Turns(id, gone));
    forall other | other in w.conns ensures hub.links[other] == ConnAfter(w, Turns(id, gone), other).link {
      LinkAfter(w, Turns(id, gone), other);
    }
  }

  /** The turn the hub took is the one recorded. */
  lemma TurnRecorded(w: World, id: Id, gone: bool)
    requires id in w.conns && w.conns[id].link.open
    ensures var before, after := w.conns[id].history, ConnAfter(w, Turns(id, gone), id).history;
            var turn := Take(w.conns[id].link, w.clock, gone, id in w.authorized, CapsIn(w, id)).1;
            if turn.Ends? then after.closing.Some? && after.closing.value.told == turn.told && after.turns == before.turns
            else |after.turns| == |before.turns| + 1 && after.turns[|before.turns|].turn == turn
  {
    hide Take;
  }

  /** An event nobody acts on: what is not publishable, or a turn of a stream that is not running. */
  lemma Idle(hub: Hub, e: Event, w: World)
    requires Mirrors(hub, w)
    requires (e.Publishes? && !Publishable(e.frame)) || (e.Turns? && (e.id in w.conns ==> !w.conns[e.id].link.open))
    ensures Mirrors(hub, Step(w, e))
  {
    hide ConnAfter, Step, Publishable;
    StepConns(w, e);
    forall id | id in w.conns ensures hub.links[id] == ConnAfter(w, e, id).link {
      LinkAfter(w, e, id);
    }
  }

  lemma SameClock(w: World, e: Event)
    ensures Step(w, e).clock == if e.Passes? then w.clock + e.seconds else w.clock
  {
  }

  /** Every event is what the hub's own methods do. A publisher publishes only what is publishable, and only an open
      stream takes turns. */
  method Perform(hub: Hub, e: Event, now: int, ghost w: World) returns (later: int)
    requires Mirrors(hub, w) && now == w.clock
    modifies hub
    ensures Mirrors(hub, Step(w, e)) && later == Step(w, e).clock
  {
    hide ConnAfter, Publishable;
    SameClock(w, e);
    later := now;
    match e {
      case Opens(id) =>
        var _ := hub.Open(id, now);
      case Publishes(frame) =>
        if Publishable(frame) {
          Publishing(hub, frame, w);
        } else {
          Idle(hub, e, w);
        }
      case ChangesSessions(affected, ended) =>
        ChangingSessions(hub, affected, ended, w);
      case Turns(id, gone) =>
        if id in hub.links && hub.links[id].open {
          var _ := Turning(hub, id, now, gone, w);
        } else {
          Idle(hub, e, w);
        }
      case Rebinds(id, granted) =>
        hub.caps := hub.caps[id := granted];
      case Admits(admitted) =>
        hub.authorized := admitted;
      case Passes(seconds) =>
        later := now + seconds;
    }
  }

  /** Any history of the hub is a run. */
  method Replay(hub: Hub, events: seq<Event>, now: int, ghost w: World)
    requires Mirrors(hub, w) && now == w.clock
    modifies hub
    ensures Mirrors(hub, Run(w, events))
  {
    hide Step, Mirrors;
    ghost var at := w;
    var time := now;
    for k := 0 to |events|
      invariant Mirrors(hub, at) && time == at.clock
      invariant Run(at, events[k..]) == Run(w, events)
    {
      assert events[k..][0] == events[k] && events[k..][1..] == events[k + 1..];
      time := Perform(hub, events[k], time, at);
      at := Step(at, events[k]);
    }
  }

  // ---- the invariant ------------------------------------------------------------------------------

  function Frames(records: seq<Record>): seq<Frame> {
    seq(|records|, i requires 0 <= i < |records| => records[i].frame)
  }

  /** A frame a stream sent, what its principal might read then, and where the frame stood among those taken. */
  datatype Delivery = Delivery(frame: Frame, caps: set<Capability>, source: nat)

  /** What a stream that took `taken` has to have sent: every frame of it its principal might read at that turn. */
  function Due(taken: seq<Record>): seq<Delivery> {
    if taken == [] then []
    else
      var before, last := taken[..|taken| - 1], taken[|taken| - 1];
      Due(before) + (if !last.frame.SessionEnded? && Permits(last.frame, last.caps)
                     then [Delivery(last.frame, last.caps, |before|)] else [])
  }

  /** What it did send of the frames it took. */
  function Delivered(turns: seq<Beat>): seq<Delivery> {
    if turns == [] then []
    else
      var before, last := turns[..|turns| - 1], turns[|turns| - 1];
      Delivered(before) + (if last.turn.Sends? && last.source.Some?
                           then [Delivery(last.turn.frame, last.caps, last.source.value)] else [])
  }

  /** What was queued for a connection and not taken by its stream. */
  function Untaken(history: History): seq<Frame> {
    if |history.taken| <= |history.accepted| then Frames(history.accepted)[|history.taken|..] else []
  }

  predicate Queued(frame: Frame) {
    Publishable(frame) || frame.SessionEnded?
  }

  /** Every gated frame among them went to a principal that might read it then. */
  ghost predicate Granted(records: seq<Record>) {
    forall r | r in records :: Permits(r.frame, r.caps)
  }

  /** What was sent that did not come from the queue, or only after an eviction. */
  ghost predicate OwnFrames(turns: seq<Beat>) {
    forall b | b in turns && b.turn.Sends? && b.source.None? :: b.turn.frame.Ping? || b.turn.frame.AccountChanged?
  }

  /** What each turn did: nothing without a frame; otherwise, authorized, it sent the frame, unless the frame was gated
      and its principal might not read it any more. */
  ghost predicate TurnsRight(turns: seq<Beat>) {
    forall b | b in turns ::
      match b.frame
      case None => b.turn.Waits?
      case Some(f) =>
        && b.authorized && !f.SessionEnded? && !f.Evicted?
        && b.turn == if f.Gated? && f.capability !in b.caps then Skips else Sends(f)
  }

  /** What ended a stream: its client gone, the marker, a session's end, or a turn without authorization; and it was told
      exactly in the last two cases. */
  ghost predicate ClosingRight(c: Closing) {
    && (c.gone || (c.frame.Some? && (c.frame.value.Evicted? || c.frame.value.SessionEnded? || !c.authorized)))
    && (c.told <==>
          !c.gone && c.frame.Some? && !c.frame.value.Evicted? && (c.frame.value.SessionEnded? || !c.authorized))
  }

  ghost predicate Healthy(link: Link, history: History) {
    && |link.queue| <= CAPACITY
    && (link.subscribed ==> link.open && !history.evicted)
    && Frames(history.taken) <= Frames(history.accepted)
    && (if history.evicted then history.ended + link.queue == Ending(history.last + Untaken(history))
        else Frames(history.accepted) == Frames(history.taken) + link.queue && history.ended == []
             && forall f | f in link.queue :: Queued(f))
    && Granted(history.accepted) && OwnFrames(history.turns)
    && TurnsRight(history.turns) && (link.open <==> history.closing.None?)
    && (history.closing.Some? ==> ClosingRight(history.closing.value))
    && (if link.open then Delivered(history.turns) == Due(history.taken)
        else Delivered(history.turns) <= Due(history.taken))
  }

  predicate IsPing(turns: seq<Beat>, k: nat)
    requires k < |turns|
  {
    k == 0 || turns[k].turn == Sends(Ping)
  }

  /** The last ping at or before turn `k`; the opening counts as one. */
  function LastPing(turns: seq<Beat>, k: nat): (i: nat)
    requires k < |turns|
    ensures i <= k && IsPing(turns, i)
  {
    if IsPing(turns, k) then k else LastPing(turns, k - 1)
  }

  /** A turn comes within a heartbeat of the last ping at or before it. */
  predicate InTime(turns: seq<Beat>, k: int) {
    0 <= k < |turns| ==> turns[k].at < turns[LastPing(turns, k)].at + HEARTBEAT
  }

  /** A ping comes no sooner than a heartbeat after the one before. */
  predicate Spaced(turns: seq<Beat>, k: int) {
    0 < k < |turns| && IsPing(turns, k) ==> turns[LastPing(turns, k - 1)].at + HEARTBEAT <= turns[k].at
  }

  /** The stream's clock. */
  ghost predicate Beating(link: Link, turns: seq<Beat>, now: int) {
    && turns != []
    && (forall b | b in turns :: b.at <= now)
    && (forall k :: InTime(turns, k)) && (forall k :: Spaced(turns, k))
    && (link.open ==> link.nextPing == turns[LastPing(turns, |turns| - 1)].at + HEARTBEAT)
  }

  ghost predicate Sound(c: Conn, now: int) {
    Healthy(c.link, c.history) && Beating(c.link, c.history.turns, now)
  }

  ghost predicate Inv(w: World) {
    forall id | id in w.conns :: Sound(w.conns[id], w.clock)
  }

  lemma FramesMore(records: seq<Record>, r: Record)
    ensures Frames(records + [r]) == Frames(records) + [r.frame]
  {
  }

  lemma DueMore(taken: seq<Record>, r: Record)
    ensures Due(taken + [r]) == Due(taken) + (if !r.frame.SessionEnded? && Permits(r.frame, r.caps)
                                              then [Delivery(r.frame, r.caps, |taken|)] else [])
  {
    assert (taken + [r])[..|taken|] == taken;
  }

  lemma DeliveredMore(turns: seq<Beat>, b: Beat)
    ensures Delivered(turns + [b]) == Delivered(turns) + (if b.turn.Sends? && b.source.Some?
                                                          then [Delivery(b.turn.frame, b.caps, b.source.value)] else [])
  {
    assert (turns + [b])[..|turns|] == turns;
  }

  lemma UntakenQueue(link: Link, history: History)
    requires Frames(history.accepted) == Frames(history.taken) + link.queue
    ensures Untaken(history) == link.queue
  {
  }

  lemma SameUntaken(h: History, g: History)
    requires h.accepted == g.accepted && h.taken == g.taken
    ensures Untaken(h) == Untaken(g)
  {
  }

  lemma EndingFrames(frames: seq<Frame>)
    ensures |Ending(frames)| <= CAPACITY
    ensures forall f | f in Ending(frames) :: f.SessionEnded? || f.AccountChanged? || f.Evicted?
  {
  }

  /** A frame put to a connection leaves it healthy: in order behind the rest, or the connection evicted. */
  lemma PutHealthy(link: Link, history: History, frame: Frame, last: seq<Frame>, caps: set<Capability>)
    requires Healthy(link, history) && Queued(frame) && Permits(frame, caps)
    ensures Healthy(Put(link, frame, last), Noted(link, history, frame, last, caps))
  {
    hide Due, Delivered, Frames, OwnFrames, Ending, Untaken, TurnsRight, ClosingRight;
    if link.subscribed {
      if |link.queue| < CAPACITY {
        FramesMore(history.accepted, Record(frame, caps));
        assert Frames(history.taken) + link.queue + [frame] == Frames(history.taken) + (link.queue + [frame]);
      } else {
        UntakenQueue(link, history);
        SameUntaken(history, Noted(link, history, frame, last, caps));
        assert [] + Evict(link, last).queue == Evict(link, last).queue;
        EndingFrames(last + link.queue);
      }
    }
  }

  /** The frame a turn takes off the queue leaves what is behind it in order. */
  lemma TookHealthy(link: Link, history: History, f: Frame, caps: set<Capability>)
    requires Healthy(link, history) && link.queue != [] && f == link.queue[0] && !history.evicted
    ensures var taken := history.taken + [Record(f, caps)];
            && Frames(taken) <= Frames(history.accepted) && Frames(history.accepted) == Frames(taken) + link.queue[1..]
  {
    hide Due, Delivered, Granted, Frames, OwnFrames, Untaken, Ending, TurnsRight;
    FramesMore(history.taken, Record(f, caps));
    assert link.queue == [f] + link.queue[1..];
    assert Frames(history.taken) + link.queue == Frames(history.taken) + [f] + link.queue[1..];
  }

  /** A stream's turn takes the next frame in order and sends exactly what may be read now. */
  lemma TurnHealthy(link: Link, history: History, now: int, gone: bool, authorized: bool, caps: set<Capability>)
    requires Healthy(link, history) && link.open
    ensures Healthy(Take(link, now, gone, authorized, caps).0, Turned(link, history, now, gone, authorized, caps))
  {
    hide Due, Delivered, Granted, Frames, OwnFrames, Untaken, Ending, TurnsRight;
    var turned := Turned(link, history, now, gone, authorized, caps);
    var turn := Take(link, now, gone, authorized, caps).1;
    if Took(link, now, gone) != [] {
      var f := link.queue[0];
      if history.evicted {
        assert history.ended + link.queue == history.ended + [f] + link.queue[1..];
        EndingFrames(history.last + Untaken(history));
      } else {
        assert f in link.queue;
        TookHealthy(link, history, f, caps);
        DueMore(history.taken, Record(f, caps));
      }
    }
    if history.evicted {
      SameUntaken(history, turned);
    }
    if !turn.Ends? {
      var beat := turned.turns[|history.turns|];
      DeliveredMore(history.turns, beat);
      OwnMore(history.turns, beat);
      RightMore(history.turns, beat);
    }
  }

  lemma RightMore(turns: seq<Beat>, b: Beat)
    requires TurnsRight(turns) && TurnsRight([b])
    ensures TurnsRight(turns + [b])
  {
    assert b in [b];
  }

  lemma OwnMore(turns: seq<Beat>, b: Beat)
    requires OwnFrames(turns)
    requires b.turn.Sends? && b.source.None? ==> b.turn.frame.Ping? || b.turn.frame.AccountChanged?
    ensures OwnFrames(turns + [b])
  {
  }

  /** One more turn keeps the clock: a ping no sooner than the deadline, any other before it. */
  lemma BeatMore(link: Link, turns: seq<Beat>, b: Beat, now: int)
    requires Beating(link, turns, now) && link.open && b.at == now
    requires if b.turn == Sends(Ping) then now >= link.nextPing else now < link.nextPing
    ensures Beating(link.(nextPing := if b.turn == Sends(Ping) then now + HEARTBEAT else link.nextPing), turns + [b], now)
  {
    hide LastPing;
    var n, more := |turns|, turns + [b];
    SamePing(turns, b, n - 1);
    LastStep(more, n);
    forall k ensures InTime(more, k) && Spaced(more, k) {
      assert InTime(turns, k) && Spaced(turns, k);
      if 0 <= k < n {
        SamePing(turns, b, k);
        if k > 0 {
          SamePing(turns, b, k - 1);
        }
      }
    }
  }

  lemma LastStep(turns: seq<Beat>, k: nat)
    requires k < |turns|
    ensures LastPing(turns, k) == if IsPing(turns, k) then k else LastPing(turns, k - 1)
  {
  }

  /** A turn keeps the stream's clock. */
  lemma TurnBeats(link: Link, history: History, now: int, gone: bool, authorized: bool, caps: set<Capability>)
    requires Healthy(link, history) && Beating(link, history.turns, now) && link.open
    ensures Beating(Take(link, now, gone, authorized, caps).0,
                    Turned(link, history, now, gone, authorized, caps).turns, now)
  {
    hide Beating, Untaken, Ending, Due, Delivered, Granted, Frames, OwnFrames, TurnsRight, ClosingRight;
    var turned := Turned(link, history, now, gone, authorized, caps).turns;
    var r := Take(link, now, gone, authorized, caps);
    if r.1.Ends? {
      Halts(link, r.0, history.turns, now);
    } else {
      if Took(link, now, gone) != [] {
        assert link.queue[0] in link.queue;
        if history.evicted {
          assert link.queue[0] in history.ended + link.queue;
          EndingFrames(history.last + Untaken(history));
        }
      }
      var beat := turned[|history.turns|];
      BeatMore(link, history.turns, beat, now);
      SameClockwork(link.(nextPing := r.0.nextPing), r.0, turned, now);
    }
  }

  lemma Halts(link: Link, ended: Link, turns: seq<Beat>, now: int)
    requires Beating(link, turns, now) && !ended.open
    ensures Beating(ended, turns, now)
  {
    hide InTime, Spaced, LastPing;
  }

  lemma SameClockwork(link: Link, other: Link, turns: seq<Beat>, now: int)
    requires Beating(link, turns, now) && other.open == link.open && other.nextPing == link.nextPing
    ensures Beating(other, turns, now)
  {
    hide InTime, Spaced, LastPing;
  }

  lemma {:induction false} SamePing(turns: seq<Beat>, b: Beat, k: nat)
    requires k < |turns|
    ensures LastPing(turns + [b], k) == LastPing(turns, k)
  {
    if !IsPing(turns, k) {
      SamePing(turns, b, k - 1);
    }
  }

  /** Every event leaves every connection sound. */
  lemma StepSound(w: World, e: Event)
    requires Inv(w)
    ensures Inv(Step(w, e))
  {
    hide Healthy, Beating, Take, Put, Noted, Turned;
    var after := Step(w, e);
    forall id | id in after.conns ensures Sound(after.conns[id], after.clock) {
      if id !in w.conns {
        NewSound(w.clock);
      } else {
        var c := w.conns[id];
        if e.Passes? {
          LaterBeats(c.link, c.history.turns, w.clock, after.clock);
        } else if e.Publishes? && Publishable(e.frame) && Permits(e.frame, CapsIn(w, id)) {
          PutHealthy(c.link, c.history, e.frame, [], CapsIn(w, id));
          PutBeats(c, w.clock, e.frame, [], CapsIn(w, id));
        } else if e.ChangesSessions? && id in e.affected {
          var frame := if e.ended then SessionEnded else AccountChanged;
          PutHealthy(c.link, c.history, frame, [frame], CapsIn(w, id));
          PutBeats(c, w.clock, frame, [frame], CapsIn(w, id));
        } else if e.Turns? && e.id == id && c.link.open {
          TurnHealthy(c.link, c.history, w.clock, e.gone, id in w.authorized, CapsIn(w, id));
          TurnBeats(c.link, c.history, w.clock, e.gone, id in w.authorized, CapsIn(w, id));
        }
      }
    }
  }

  lemma NewSound(now: int)
    ensures Sound(Opened(now), now)
  {
  }

  lemma LaterBeats(link: Link, turns: seq<Beat>, now: int, later: int)
    requires Beating(link, turns, now) && now <= later
    ensures Beating(link, turns, later)
  {
    hide InTime, Spaced, LastPing;
  }

  lemma PutBeats(c: Conn, now: int, frame: Frame, last: seq<Frame>, caps: set<Capability>)
    requires Beating(c.link, c.history.turns, now)
    ensures Beating(PutTo(c, frame, last, caps).link, PutTo(c, frame, last, caps).history.turns, now)
  {
    hide InTime, Spaced, LastPing, Ending;
  }

  /** In every interleaving every connection stays sound: bounded, in order, granted, told why it was ended, and on its
      own clock. */
  lemma {:induction false} RunHealthy(w: World, events: seq<Event>)
    requires Inv(w)
    ensures Inv(Run(w, events))
    decreases |events|
  {
    hide Step, Inv;
    if events != [] {
      StepSound(w, events[0]);
      RunHealthy(Step(w, events[0]), events[1..]);
    }
  }

  // ---- what the invariant promises ----------------------------------------------------------------

  /** What is due is a part of what was taken, in its order, and all of it that may be read. */
  lemma {:induction false} DueMeans(taken: seq<Record>)
    ensures forall d | d in Due(taken) ::
              d.source < |taken| && taken[d.source] == Record(d.frame, d.caps) && Permits(d.frame, d.caps)
    ensures forall i, j | 0 <= i < j < |Due(taken)| :: Due(taken)[i].source < Due(taken)[j].source
    ensures forall k | 0 <= k < |taken| && !taken[k].frame.SessionEnded? && Permits(taken[k].frame, taken[k].caps) ::
              Delivery(taken[k].frame, taken[k].caps, k) in Due(taken)
  {
    if taken != [] {
      DueMeans(taken[..|taken| - 1]);
    }
  }

  /** A stream never evicted has taken exactly what was queued first, and sent in order every frame it took that might
      be read at that turn, and no other. */
  lemma InOrder(w: World, events: seq<Event>, id: Id)
    requires Inv(w) && id in Run(w, events).conns
    requires !Run(w, events).conns[id].history.evicted && Run(w, events).conns[id].link.open
    ensures var link, history := Run(w, events).conns[id].link, Run(w, events).conns[id].history;
            && Frames(history.taken) <= Frames(history.accepted)
            && Delivered(history.turns) == Due(history.taken)
            && |history.taken| + |link.queue| == |history.accepted| && |link.queue| <= CAPACITY
  {
    hide Run, Due, Delivered;
    RunHealthy(w, events);
    var link, history := Run(w, events).conns[id].link, Run(w, events).conns[id].history;
    assert |Frames(history.accepted)| == |Frames(history.taken) + link.queue|;
  }

  /** Whatever a stream sends, frame or ping, it sends at a turn at which the connection is authorized; a turn about a
      frame, or due for a ping, without authorization ends the stream, and it is told so. A stream is told that its
      session ended exactly then, or at the session's end. */
  lemma AuthorizedOnly(w: World, events: seq<Event>, id: Id)
    requires Inv(w) && id in Run(w, events).conns
    ensures var history := Run(w, events).conns[id].history;
            && (forall b | b in history.turns && b.turn.Sends? :: b.authorized && b.frame == Some(b.turn.frame))
            && (forall b | b in history.turns && !b.authorized :: b.frame.None? && b.turn.Waits?)
            && (history.closing.Some? ==>
                  var c := history.closing.value;
                  && (c.told <==> !c.gone && c.frame.Some? && c.frame != Some(Evicted)
                                  && (c.frame == Some(SessionEnded) || !c.authorized))
                  && (c.gone || c.frame in {Some(Evicted), Some(SessionEnded)} || (c.frame.Some? && !c.authorized)))
            && (Run(w, events).conns[id].link.open <==> history.closing.None?)
  {
    hide Run, Due, Delivered, Beating, OwnFrames, Granted, Frames, Untaken;
    RunHealthy(w, events);
    assert Sound(Run(w, events).conns[id], Run(w, events).clock);
  }

  /** A gated frame was sent at that turn. */
  predicate GatedTurn(turns: seq<Beat>, k: int) {
    0 <= k < |turns| && turns[k].turn.Sends? && turns[k].turn.frame.Gated?
  }

  /** The place of a delivery among all of a stream's. */
  lemma {:induction false} DeliveredAt(turns: seq<Beat>, k: nat)
    requires k < |turns| && turns[k].turn.Sends? && turns[k].source.Some?
    ensures var n := |Delivered(turns[..k])|;
            && n < |Delivered(turns)|
            && Delivered(turns)[n] == Delivery(turns[k].turn.frame, turns[k].caps, turns[k].source.value)
  {
    if k == |turns| - 1 {
      DeliveredMore(turns[..k], turns[k]);
      assert turns == turns[..k] + [turns[k]];
    } else {
      var before := turns[..|turns| - 1];
      assert before[..k] == turns[..k];
      DeliveredAt(before, k);
    }
  }

  lemma {:induction false} DeliveredGrows(turns: seq<Beat>, i: nat, k: nat)
    requires i < k <= |turns| && turns[i].turn.Sends? && turns[i].source.Some?
    ensures |Delivered(turns[..i])| < |Delivered(turns[..k])|
  {
    DeliveredMore(turns[..k - 1], turns[k - 1]);
    assert turns[..k] == turns[..k - 1] + [turns[k - 1]];
    if i < k - 1 {
      DeliveredGrows(turns, i, k - 1);
    }
  }

  /** The gated frame sent at turn `k` was queued where it says, and its principal might read it then and now. */
  ghost predicate Carried(accepted: seq<Record>, turns: seq<Beat>, k: nat)
    requires GatedTurn(turns, k)
  {
    && turns[k].source.Some? && turns[k].source.value < |accepted|
    && accepted[turns[k].source.value].frame == turns[k].turn.frame
    && turns[k].turn.frame.capability in accepted[turns[k].source.value].caps
    && turns[k].turn.frame.capability in turns[k].caps
  }

  lemma CarriedAt(link: Link, history: History, k: nat)
    requires Healthy(link, history) && GatedTurn(history.turns, k)
    ensures Carried(history.accepted, history.turns, k)
    ensures var n := |Delivered(history.turns[..k])|;
            n < |Due(history.taken)| && Due(history.taken)[n].source == history.turns[k].source.value
  {
    hide Due, Delivered, Untaken, Ending, Permits;
    var accepted, taken, turns := history.accepted, history.taken, history.turns;
    assert turns[k] in turns;
    DeliveredAt(turns, k);
    DueMeans(taken);
    var n, p := |Delivered(turns[..k])|, turns[k].source.value;
    assert Due(taken)[n] in Due(taken);
    assert Frames(taken)[p] == Frames(accepted)[p];
    assert accepted[p] in accepted;
    assert Permits(accepted[p].frame, accepted[p].caps) && Permits(turns[k].turn.frame, turns[k].caps);
    GatedPermit(accepted[p]);
    GatedPermit(Record(turns[k].turn.frame, turns[k].caps));
  }

  lemma GatedPermit(r: Record)
    requires r.frame.Gated? && Permits(r.frame, r.caps)
    ensures r.frame.capability in r.caps
  {
  }

  /** Every gated frame sent was queued for that connection, and its principal might read it both when it was queued and
      when it was sent; and gated frames are sent in the order they were queued, none twice. */
  lemma GatedTwice(w: World, events: seq<Event>, id: Id, k: nat)
    requires Inv(w) && id in Run(w, events).conns && GatedTurn(Run(w, events).conns[id].history.turns, k)
    ensures var accepted, turns := Run(w, events).conns[id].history.accepted, Run(w, events).conns[id].history.turns;
            && Carried(accepted, turns, k)
            && forall i: nat | i < k && GatedTurn(turns, i) ::
                 Carried(accepted, turns, i) && turns[i].source.value < turns[k].source.value
  {
    hide Run, Due, Delivered, Healthy, Beating, Carried;
    RunHealthy(w, events);
    var link, history := Run(w, events).conns[id].link, Run(w, events).conns[id].history;
    assert Sound(Run(w, events).conns[id], Run(w, events).clock);
    CarriedAt(link, history, k);
    forall i: nat | i < k && GatedTurn(history.turns, i)
      ensures Carried(history.accepted, history.turns, i)
      ensures history.turns[i].source.Some? && history.turns[k].source.Some?
      ensures history.turns[i].source.value < history.turns[k].source.value
    {
      CarriedAt(link, history, i);
      CarriedBefore(link, history, i, k);
    }
  }

  lemma CarriedBefore(link: Link, history: History, i: nat, k: nat)
    requires Healthy(link, history) && i < k && GatedTurn(history.turns, i) && GatedTurn(history.turns, k)
    ensures history.turns[i].source.Some? && history.turns[k].source.Some?
    ensures history.turns[i].source.value < history.turns[k].source.value
  {
    hide Due, Delivered, Healthy;
    CarriedAt(link, history, i);
    CarriedAt(link, history, k);
    DeliveredGrows(history.turns, i, k);
    DueMeans(history.taken);
  }

  /** While a stream runs, a gated frame it took was sent exactly if its principal might still read it. */
  lemma GatedSkipped(w: World, events: seq<Event>, id: Id, p: nat)
    requires Inv(w) && id in Run(w, events).conns && Run(w, events).conns[id].link.open
    requires p < |Run(w, events).conns[id].history.taken| && Run(w, events).conns[id].history.taken[p].frame.Gated?
    ensures var history := Run(w, events).conns[id].history;
            (exists d :: d in Delivered(history.turns) && d.source == p) <==>
            history.taken[p].frame.capability in history.taken[p].caps
  {
    hide Run, Due, Delivered, Untaken, Ending;
    RunHealthy(w, events);
    var history := Run(w, events).conns[id].history;
    assert Healthy(Run(w, events).conns[id].link, history);
    DueMeans(history.taken);
  }

  lemma EvictedStays(c: Conn)
    requires c.history.evicted && !c.link.subscribed
    ensures forall frame, last, caps :: PutTo(c, frame, last, caps) == c
  {
  }

  lemma TurnsDrain(c: Conn, now: int)
    requires c.history.evicted
    ensures forall gone, authorized, caps ::
              var link := Take(c.link, now, gone, authorized, caps).0;
              && Turned(c.link, c.history, now, gone, authorized, caps).evicted
              && (c.link.subscribed || !link.subscribed)
              && (link.queue == c.link.queue || (c.link.queue != [] && link.queue == c.link.queue[1..]))
  {
  }

  lemma EvictedSilent(w: World, id: Id)
    requires Inv(w) && id in w.conns && w.conns[id].history.evicted
    ensures !w.conns[id].link.subscribed
  {
    hide Due, Delivered, Granted, Beating, OwnFrames;
    assert Sound(w.conns[id], w.clock);
  }

  /** An eviction is final: the connection is published to no more, and its queue only drains. */
  lemma EvictedDrains(w: World, e: Event, id: Id)
    requires Inv(w) && id in w.conns && w.conns[id].history.evicted
    ensures id in Step(w, e).conns && Step(w, e).conns[id].history.evicted
    ensures var before, after := w.conns[id].link, Step(w, e).conns[id].link;
            && !after.subscribed
            && (after.queue == before.queue || (before.queue != [] && after.queue == before.queue[1..]))
  {
    hide Inv, PutTo, Take, Turned, Publishable;
    EvictedSilent(w, id);
    EvictedStays(w.conns[id]);
    TurnsDrain(w.conns[id], w.clock);
  }

  /** The turns of a stream come at most `d` apart. */
  ghost predicate AtMost(turns: seq<Beat>, d: int) {
    forall k | 0 < k < |turns| :: turns[k].at <= turns[k - 1].at + d
  }

  /** How far a ping at turn `k` is from the one before. */
  function Gap(turns: seq<Beat>, k: nat): int
    requires 0 < k < |turns|
  {
    turns[k].at - turns[LastPing(turns, k - 1)].at
  }

  /** However busy a stream is, as long as its turns come at most `d` apart, each ping follows the one before (the
      opening counts) at least a heartbeat and less than a heartbeat and `d` later; and as long as it still turns, now
      is no further from its last ping. */
  lemma PingOnTime(w: World, events: seq<Event>, id: Id, d: int)
    requires Inv(w) && id in Run(w, events).conns && AtMost(Run(w, events).conns[id].history.turns, d)
    ensures var turns, now := Run(w, events).conns[id].history.turns, Run(w, events).clock;
            && turns != []
            && (forall k: nat | 0 < k < |turns| && IsPing(turns, k) :: HEARTBEAT <= Gap(turns, k) < HEARTBEAT + d)
            && (now <= turns[|turns| - 1].at + d ==> now < turns[LastPing(turns, |turns| - 1)].at + HEARTBEAT + d)
  {
    hide Run, Healthy, Beating, LastPing, IsPing, Gap, AtMost;
    RunHealthy(w, events);
    assert Sound(Run(w, events).conns[id], Run(w, events).clock);
    PingGaps(Run(w, events).conns[id].link, Run(w, events).conns[id].history.turns, Run(w, events).clock, d);
  }

  lemma PingGaps(link: Link, turns: seq<Beat>, now: int, d: int)
    requires Beating(link, turns, now) && AtMost(turns, d)
    ensures turns != []
    ensures forall k: nat | 0 < k < |turns| && IsPing(turns, k) :: HEARTBEAT <= Gap(turns, k) < HEARTBEAT + d
    ensures now <= turns[|turns| - 1].at + d ==> now < turns[LastPing(turns, |turns| - 1)].at + HEARTBEAT + d
  {
    hide LastPing, IsPing;
    assert InTime(turns, |turns| - 1);
    forall k: nat | 0 < k < |turns| && IsPing(turns, k) ensures HEARTBEAT <= Gap(turns, k) < HEARTBEAT + d {
      assert InTime(turns, k - 1) && Spaced(turns, k);
    }
  }

  /** An evicted stream is told the right reason, once: over every run what it took since and what it has left are the
      ending of what it had not taken and of what it was to be told when it was evicted. */
  lemma EvictedTold(w: World, events: seq<Event>, id: Id)
    requires Inv(w) && id in Run(w, events).conns && Run(w, events).conns[id].history.evicted
    ensures var link, history := Run(w, events).conns[id].link, Run(w, events).conns[id].history;
            var told, missed := history.ended + link.queue, history.last + Untaken(history);
            && told != [] && told[|told| - 1] == Evicted
            && (SessionEnded in missed ==> told == [SessionEnded, Evicted])
            && (SessionEnded !in missed && AccountChanged in missed ==> told == [AccountChanged, Evicted])
            && (SessionEnded !in missed && AccountChanged !in missed ==> told == [Evicted])
  {
    hide Run, Beating, Untaken, Due, Delivered, Frames;
    RunHealthy(w, events);
    assert Sound(Run(w, events).conns[id], Run(w, events).clock);
  }
}
