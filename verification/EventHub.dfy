/** The live event hub: bounded queues, publication that never waits, eviction, and streams that re-check what they
    send. Publishers, session changes and the streams themselves interleave in any order. */
module EventHub {
  import opened Support

  const CAPACITY := 100
  const HEARTBEAT := 30

  type Id = nat
  type Capability = int

  datatype Frame =
    | Text(body: int)
    | Gated(capability: Capability, body: int)
    | AccountChanged | SessionEnded | Evicted | Ping

  /** One connection: its queue, whether it is published to, when its next ping is due, and whether its stream runs. */
  datatype Link = Link(queue: seq<Frame>, subscribed: bool, nextPing: int, open: bool)

  /** What an evicted connection is still told: a session's end wins over a role change. */
  function Ending(frames: seq<Frame>): (r: seq<Frame>)
    ensures |r| <= 2
  {
    if SessionEnded in frames then [SessionEnded, Evicted]
    else if AccountChanged in frames then [AccountChanged, Evicted]
    else [Evicted]
  }

  function Evict(link: Link, last: seq<Frame>): Link {
    link.(subscribed := false, queue := Ending(last + link.queue))
  }

  /** A frame put to one connection without waiting. */
  function Put(link: Link, frame: Frame, last: seq<Frame>): Link {
    if !link.subscribed then link
    else if |link.queue| < CAPACITY then link.(queue := link.queue + [frame])
    else Evict(link, last)
  }

  /** Whether a connection whose principal holds `caps` may be sent `frame`. */
  predicate Permits(frame: Frame, caps: set<Capability>) {
    frame.Gated? ==> frame.capability in caps
  }

  /** A connection that should be sent `frame` and has no room for it. */
  predicate Overruns(link: Link, frame: Frame, caps: set<Capability>) {
    Permits(frame, caps) && link.subscribed && |link.queue| >= CAPACITY
  }

  datatype Turn = Waits | Sends(frame: Frame) | Skips | Ends(told: bool)

  /** One turn of a stream: at its deadline a ping, else the next queued frame, re-checked before it is sent. */
  function Take(link: Link, now: int, gone: bool, authorized: bool, caps: set<Capability>): (Link, Turn) {
    if gone then (Closed(link), Ends(false))
    else if now < link.nextPing && link.queue == [] then (link, Waits)
    else
      var frame := if now < link.nextPing then link.queue[0] else Ping;
      var taken := if now < link.nextPing then link.(queue := link.queue[1..]) else link.(nextPing := now + HEARTBEAT);
      if frame.Evicted? then (Closed(taken), Ends(false))
      else if frame.SessionEnded? || !authorized then (Closed(taken), Ends(true))
      else if !Permits(frame, caps) then (taken, Skips)
      else (taken, Sends(frame))
  }

  function Closed(link: Link): Link {
    link.(open := false, subscribed := false)
  }

  // ---- the hub ------------------------------------------------------------------------------------

  class Hub {
    var links: map<Id, Link>
    /** What each connection's principal may read now; a role change re-binds it in place. */
    var caps: map<Id, set<Capability>>
    /** The connections whose session and installation still admit them. */
    var authorized: set<Id>

    function CapsOf(id: Id): set<Capability>
      reads this`caps
    {
      if id in caps then caps[id] else {}
    }

    /** Registers a new connection's queue. */
    method Open(id: Id, now: int) returns (ok: bool)
      modifies this`links
      ensures ok <==> id !in old(links)
      ensures links == if ok then old(links)[id := Link([], true, now + HEARTBEAT, true)] else old(links)
    {
      ok := id !in links;
      if ok {
        links := links[id := Link([], true, now + HEARTBEAT, true)];
      }
    }

    /** Drains a connection's backlog and leaves it the reason it must still be told, if any, and the marker. */
    method EvictOne(id: Id, last: seq<Frame>)
      requires id in links
      modifies this`links
      ensures links == old(links)[id := Evict(old(links)[id], last)]
    {
      ghost var before := links[id];
      var backlog := links[id].queue;
      var ended, changed := SessionEnded in last, AccountChanged in last;
      while backlog != []
        invariant ended || SessionEnded in backlog <==> SessionEnded in last + before.queue
        invariant changed || AccountChanged in backlog <==> AccountChanged in last + before.queue
        decreases |backlog|
      {
        var frame := backlog[0];
        assert forall f: Frame :: f in backlog <==> f == frame || f in backlog[1..];
        backlog := backlog[1..];
        if frame.SessionEnded? {
          ended := true;
        } else if frame.AccountChanged? {
          changed := true;
        }
      }
      var reason := if ended then [SessionEnded] else if changed then [AccountChanged] else [];
      assert reason + [Evicted] == Ending(last + before.queue);
      links := links[id := links[id].(subscribed := false, queue := reason + [Evicted])];
    }

    /** Publishes one frame: queued where there is room, and the connections without room are evicted afterwards. */
    method Broadcast(frame: Frame)
      modifies this`links
      ensures links.Keys == old(links).Keys
      ensures forall id | id in old(links) ::
                links[id] == if Permits(frame, CapsOf(id)) then Put(old(links)[id], frame, []) else old(links)[id]
    {
      hide Ending;
      ghost var before := links;
      var dead: set<Id> := {};
      var left := links.Keys;
      while left != {}
        invariant left <= before.Keys && links.Keys == before.Keys && dead <= before.Keys - left
        invariant forall id | id in before && id in left :: links[id] == before[id]
        invariant forall id | id in dead :: links[id] == before[id] && Overruns(before[id], frame, CapsOf(id))
        invariant forall id | id in before && id !in left && id !in dead ::
                    links[id] == if Permits(frame, CapsOf(id)) then Put(before[id], frame, []) else before[id]
        decreases left
      {
        var id :| id in left;
        left := left - {id};
        if links[id].subscribed && Permits(frame, CapsOf(id)) {
          if |links[id].queue| < CAPACITY {
            links := links[id := links[id].(queue := links[id].queue + [frame])];
          } else {
            dead := dead + {id};
          }
        }
      }
      EvictAll(dead);
    }

    method EvictAll(dead: set<Id>)
      requires dead <= links.Keys
      modifies this`links
      ensures links.Keys == old(links).Keys
      ensures forall id | id in old(links) :: links[id] == if id in dead then Evict(old(links)[id], []) else old(links)[id]
    {
      ghost var before := links;
      var left := dead;
      while left != {}
        invariant left <= dead && links.Keys == before.Keys
        invariant forall id | id in before :: links[id] == if id in dead - left then Evict(before[id], []) else before[id]
        decreases left
      {
        var id :| id in left;
        left := left - {id};
        EvictOne(id, []);
      }
    }

    /** Tells the connections of changed sessions that they ended, or that their account changed. */
    method SessionsEnded(affected: set<Id>, ended: bool)
      modifies this`links
      ensures links.Keys == old(links).Keys
      ensures var frame := if ended then SessionEnded else AccountChanged;
              forall id | id in old(links) ::
                links[id] == if id in affected then Put(old(links)[id], frame, [frame]) else old(links)[id]
    {
      ghost var before := links;
      var frame := if ended then SessionEnded else AccountChanged;
      var left := links.Keys;
      while left != {}
        invariant left <= before.Keys && links.Keys == before.Keys
        invariant forall id | id in before ::
                    links[id] == if id in affected && id !in left then Put(before[id], frame, [frame]) else before[id]
        decreases left
      {
        var id :| id in left;
        left := left - {id};
        if links[id].subscribed && id in affected {
          if |links[id].queue| < CAPACITY {
            links := links[id := links[id].(queue := links[id].queue + [frame])];
          } else {
            EvictOne(id, [frame]);
          }
        }
      }
    }

    /** One turn of a connection's stream. */
    method Advance(id: Id, now: int, gone: bool) returns (turn: Turn)
      requires id in links
      modifies this`links
      ensures var r := Take(old(links)[id], now, gone, id in authorized, CapsOf(id));
              links == old(links)[id := r.0] && turn == r.1
    {
      var link := links[id];
      if gone {
        links := links[id := Closed(link)];
        return Ends(false);
      }
      var frame := Ping;
      if now < link.nextPing {
        if link.queue == [] {
          assert links[id := link] == links;
          return Waits;
        }
        frame := link.queue[0];
        link := link.(queue := link.queue[1..]);
      }
      if frame.Evicted? {
        links := links[id := Closed(link)];
        return Ends(false);
      }
      if frame.Ping? && now >= link.nextPing {
        link := link.(nextPing := now + HEARTBEAT);
      }
      if frame.SessionEnded? || id !in authorized {
        links := links[id := Closed(link)];
        return Ends(true);
      }
      links := links[id := link];
      return if Permits(frame, CapsOf(id)) then Sends(frame) else Skips;
    }
  }
}
