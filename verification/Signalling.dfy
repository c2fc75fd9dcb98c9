/**
 * A connection's signalling handler: the join and presence_set requests and the goroutine
 * that forwards broadcasts, each proved to be steps of `PeerLifecycle`.
 */
module Signalling {
  import opened SessionMeta
  import opened EtcdCoordinators
  import PM = PresenceModel
  import PS = PresenceSession
  import PL = PeerLifecycle

  /** The updates a run of connection steps makes to the session. */
  function Ops(steps: seq<PL.Step>): seq<PM.Op> {
    seq(|steps|, i requires 0 <= i < |steps| => PL.OpOf(steps[i]))
  }

  lemma OpsSnoc(steps: seq<PL.Step>, st: PL.Step)
    ensures Ops(steps + [st]) == Ops(steps) + [PL.OpOf(st)]
  {
  }

  /** The connection steps leave the session where its own operations do. */
  lemma {:induction false} SessionAfter(steps: seq<PL.Step>)
    ensures PL.After(steps).session == PM.Run(Ops(steps))
  {
    if steps != [] {
      var before, last := steps[..|steps| - 1], steps[|steps| - 1];
      SessionAfter(before);
      assert steps == before + [last];
      OpsSnoc(before, last);
      PM.RunSnoc(Ops(before), PL.OpOf(last));
    }
  }

  /** A session of this node, and the steps its connections have taken. */
  class Hosted {
    const session: PS.Session
    ghost var steps: seq<PL.Step>

    ghost predicate Valid()
      reads this, session, session.presence, session.chans, session.taken.Keys
    {
      session.Valid() && PL.Steps(steps) && session.ops == Ops(steps)
    }

    constructor ()
      ensures Valid() && steps == [] && session.ops == [] && session.chans == []
      ensures fresh(session) && fresh(session.presence)
    {
      session := new PS.Session();
      steps := [];
    }

    /** The peer has joined this session, or its connection is already over. */
    ghost predicate Knows(peer: PM.PeerId)
      reads this
    {
      peer in PL.After(steps).peers
    }

    ghost method Took(st: PL.Step)
      requires PL.Steps(steps) && PL.Enabled(PL.After(steps), st) && session.ops == Ops(steps) + [PL.OpOf(st)]
      modifies this
      ensures PL.Steps(steps) && session.ops == Ops(steps) && steps == old(steps) + [st]
      ensures PL.After(steps) == PL.Do(PL.After(old(steps)), st)
    {
      PL.StepsSnoc(steps, st);
      OpsSnoc(steps, st);
      steps := steps + [st];
    }
  }

  /**
   * On the objects themselves: the listeners are the joined peers, and when every connection
   * is over, listeners and presence are empty unless a presence set came too late.
   */
  lemma SessionFollowsPeers(h: Hosted)
    requires h.Valid()
    ensures var w := PL.After(h.steps);
            && (forall p :: p in h.session.broadcastListeners <==> PL.In(w, p, PL.Joined))
            && (forall p | PL.In(w, p, PL.Gone) :: p in h.session.presence.entries <==> PL.SetTooLate(h.steps, p))
            && ((forall p | p in w.peers :: w.peers[p] == PL.Gone) && (forall p :: !PL.SetTooLate(h.steps, p)) ==>
                  h.session.broadcastListeners.Keys == {} && h.session.presence.entries == map[])
  {
    SessionAfter(h.steps);
    PL.PeersComeAndGo(h.steps);
    assert h.session.broadcastListeners.Keys == PL.After(h.steps).session.listeners.Keys;
  }

  /** The sessions of the node, as its coordinator hands them out. */
  class Sessions {
    var local: map<Sid, Hosted>

    constructor ()
      ensures local == map[]
    {
      local := map[];
    }

    /** The objects of the session `sid`, if there is one. */
    ghost function Footprint(sid: Sid): set<object>
      reads this, local.Values, set h | h in local.Values :: h.session
    {
      if sid in local then
        var h := local[sid];
        {h, h.session, h.session.presence} + (set c | c in h.session.chans)
      else {}
    }

    /** The session of that id, made if there is none. */
    method GetSession(sid: Sid) returns (h: Hosted)
      modifies this
      ensures sid in local && local[sid] == h
      ensures sid in old(local) ==> local == old(local)
      ensures sid !in old(local) ==>
                && local == old(local)[sid := h] && h.Valid() && h.steps == []
                && h.session.ops == [] && h.session.chans == []
                && fresh(h) && fresh(h.session) && fresh(h.session.presence)
    {
      if sid in local {
        return local[sid];
      }
      h := new Hosted();
      local := local[sid := h];
    }

    /** The session of that id has closed, and leaves the map; those who hold it still do. */
    method Remove(sid: Sid)
      modifies this
      ensures local == old(local) - {sid}
    {
      local := local - {sid};
    }
  }

  datatype Reply = Answered | Redirected(meta: Meta) | Failed500

  /** How the SFU takes a join: refused at once, failed after it got the session, or accepted. */
  datatype SfuJoin = Refused | Failed | Accepted

  class JSONSignal {
    const id: PM.PeerId
    const sessions: Sessions
    var sid: Sid

    constructor (id: PM.PeerId, sessions: Sessions)
      ensures this.id == id && this.sessions == sessions && sid == ""
    {
      this.id, this.sessions, sid := id, sessions, "";
    }

    /** The steps taken in the session `room` so far. */
    ghost function StepsIn(room: Sid): seq<PL.Step>
      reads sessions, sessions.local.Values
    {
      if room in sessions.local then sessions.local[room].steps else []
    }

    ghost function OpsIn(room: Sid): seq<PM.Op>
      reads sessions, set h | h in sessions.local.Values :: h.session
    {
      if room in sessions.local then sessions.local[room].session.ops else []
    }

    /**
     * A join that is parsed, not redirected, accepted and answered registers a channel of its
     * own with the session asked for. The SFU gets that session, made if need be, before it
     * accepts or fails, and a join that fails from there on leaves it mapped without a listener
     * of this peer. A peer is accepted once.
     */
    method HandleJoin(room: Sid, parsed: bool, lookup: Answer, sfu: SfuJoin, answers: bool)
      returns (reply: Reply, listen: PS.Chan?)
      requires room in sessions.local ==>
                 sessions.local[room].Valid() && (sessions.local[room].Knows(id) ==> sfu.Refused?)
      modifies this, sessions, sessions.Footprint(room)
      ensures reply.Answered? <==> parsed && lookup.Ok? && !lookup.meta.redirect && sfu.Accepted? && answers
      ensures reply.Redirected? <==> parsed && lookup.Ok? && lookup.meta.redirect
      ensures reply.Redirected? ==> reply.meta == lookup.meta
      ensures reply.Answered? <==> listen != null
      ensures var gets := parsed && lookup.Ok? && !lookup.meta.redirect && !sfu.Refused?;
              && (gets ==> room in sessions.local && sessions.local[room].Valid())
              && sessions.local == (if gets && room !in old(sessions.local)
                                    then old(sessions.local)[room := sessions.local[room]] else old(sessions.local))
      ensures room in sessions.local && room !in old(sessions.local) ==>
                && fresh(sessions.local[room]) && fresh(sessions.local[room].session)
                && fresh(sessions.local[room].session.presence)
                && sessions.local[room].session.chans == (if listen != null then [listen] else [])
      ensures listen != null ==> fresh(listen)
      ensures room in sessions.local ==>
                Entered(sessions.local[room], listen, old(StepsIn(room)), old(OpsIn(room)))
      ensures sid == if reply.Answered? then room else old(sid)
    {
      if !parsed || lookup.Error? {
        return Failed500, null;
      }
      if lookup.meta.redirect {
        return Redirected(lookup.meta), null;
      }
      if sfu.Refused? {
        return Failed500, null;
      }
      listen := EnterRoom(room, sfu.Accepted? && answers);
      reply := if listen != null then Answered else Failed500;
    }

    /** Gets the session, and registers with it if all went well. */
    method EnterRoom(room: Sid, well: bool) returns (listen: PS.Chan?)
      requires room in sessions.local ==>
                 sessions.local[room].Valid() && (well ==> !sessions.local[room].Knows(id))
      modifies this, sessions, sessions.Footprint(room)
      ensures listen != null <==> well
      ensures room in sessions.local && sessions.local[room].Valid()
      ensures room in old(sessions.local) ==>
                && sessions.local == old(sessions.local)
                && Entered(sessions.local[room], listen, old(StepsIn(room)), old(OpsIn(room)))
      ensures room !in old(sessions.local) ==>
                && sessions.local == old(sessions.local)[room := sessions.local[room]]
                && fresh(sessions.local[room]) && fresh(sessions.local[room].session)
                && fresh(sessions.local[room].session.presence)
                && sessions.local[room].session.chans == (if listen != null then [listen] else [])
                && Entered(sessions.local[room], listen, [], [])
      ensures well ==> fresh(listen)
      ensures sid == if well then room else old(sid)
    {
      var h := sessions.GetSession(room);
      listen := Admit(h, well);
      if well {
        sid := room;
      }
    }

    /** What a join has done to its session: nothing, or registered `listen`. */
    ghost predicate Entered(h: Hosted, listen: PS.Chan?, steps: seq<PL.Step>, ops: seq<PM.Op>)
      reads h, h.session
    {
      if listen != null then h.steps == steps + [PL.Join(id)] && Listening(h, listen)
      else h.steps == steps && h.session.ops == ops
    }

    method Admit(h: Hosted, well: bool) returns (listen: PS.Chan?)
      requires h.Valid() && (well ==> !h.Knows(id))
      modifies h, h.session
      ensures h.Valid() && (listen != null <==> well) && (well ==> fresh(listen))
      ensures Entered(h, listen, old(h.steps), old(h.session.ops))
      ensures h.session.chans == old(h.session.chans) + (if listen != null then [listen] else [])
    {
      listen := null;
      if well {
        listen := Register(h);
      }
    }

    method Register(h: Hosted) returns (listen: PS.Chan)
      requires h.Valid() && !h.Knows(id)
      modifies h, h.session
      ensures h.Valid() && h.steps == old(h.steps) + [PL.Join(id)] && Listening(h, listen)
      ensures fresh(listen) && h.session.chans == old(h.session.chans) + [listen]
    {
      listen := new PS.Chan(|h.session.chans|);
      h.session.BroadcastAddListener(id, listen);
      h.Took(PL.Join(id));
    }

    /**
     * `meta` is what the request holds, if it can be parsed; JSON null is a value to store. The
     * update goes to whatever session the node has for the id by then. It is a presence step if
     * that is the session the peer joined. A new session is made if and only if the node has
     * none: it shows this peer and nobody else, and has no listener.
     */
    method HandlePresenceSet(meta: PM.Value, parsed: bool) returns (ok: bool)
      requires sid in sessions.local ==> sessions.local[sid].session.Valid()
      modifies sessions, sessions.Footprint(sid)
      ensures ok <==> sid != "" && parsed
      ensures sessions.local != old(sessions.local) <==> ok && sid !in old(sessions.local)
      ensures !ok ==> OpsIn(sid) == old(OpsIn(sid)) && StepsIn(sid) == old(StepsIn(sid))
      ensures ok ==>
                && sid in sessions.local && sessions.local[sid].session.Valid()
                && OpsIn(sid) == old(OpsIn(sid)) + [PM.UpdatePresence(id, PM.Set(meta))]
      ensures ok && sid !in old(sessions.local) ==>
                var h := sessions.local[sid];
                && fresh(h) && fresh(h.session) && fresh(h.session.presence)
                && sessions.local == old(sessions.local)[sid := h] && h.steps == []
                && h.session.presence.entries == map[id := meta] && h.session.broadcastListeners == map[]
      ensures ok && old(sid in sessions.local && sessions.local[sid].Valid() && sessions.local[sid].Knows(id)) ==>
                sessions.local[sid].Valid() && StepsIn(sid) == old(StepsIn(sid)) + [PL.SetPresence(id, meta)]
    {
      if sid == "" || !parsed {
        return false;
      }
      var h := sessions.GetSession(sid);
      SetPresence(h, meta);
      return true;
    }

    method SetPresence(h: Hosted, meta: PM.Value)
      requires h.session.Valid()
      modifies h, h.session, h.session.presence, h.session.chans
      ensures h.session.Valid() && h.session.ops == old(h.session.ops) + [PM.UpdatePresence(id, PM.Set(meta))]
      ensures h.session.presence.entries == old(h.session.presence.entries)[id := meta]
      ensures h.session.broadcastListeners == old(h.session.broadcastListeners)
      ensures h.session.chans == old(h.session.chans) && !old(h.Valid() && h.Knows(id)) ==> h.steps == old(h.steps)
      ensures old(h.Valid() && h.Knows(id)) ==> h.Valid() && h.steps == old(h.steps) + [PL.SetPresence(id, meta)]
    {
      ghost var joined := h.Valid() && h.Knows(id);
      PM.RunSnoc(h.session.ops, PM.UpdatePresence(id, PM.Set(meta)));
      h.session.UpdatePresenceMetaForPeer(id, PM.Set(meta));
      if joined {
        h.Took(PL.SetPresence(id, meta));
      }
    }

    ghost predicate Listening(h: Hosted, listen: PS.Chan)
      reads h, h.session
    {
      && PL.In(PL.After(h.steps), id, PL.Joined)
      && listen.index < |h.session.chans| && h.session.chans[listen.index] == listen
    }

    /** One turn of the loop: the next message, if there is one, goes out as it was broadcast. */
    method Forward(h: Hosted, listen: PS.Chan) returns (sent: seq<PM.Message>)
      requires h.Valid() && Listening(h, listen)
      modifies h, h.session`ops, h.session`model, listen
      ensures h.Valid() && Listening(h, listen) && h.steps == old(h.steps) + [PL.Deliver(listen.index)]
      ensures |sent| == (if old(listen.queue) == [] then 0 else 1)
      ensures h.session.ReadFrom(listen.index) == old(h.session.ReadFrom(listen.index)) + sent
    {
      ghost var c := listen.index;
      sent := h.session.ReceiveIfAny(c, listen);
      h.Took(PL.Deliver(c));
    }

    /** Meanwhile another connection joins, sets its presence, or stops. */
    method Elsewhere(h: Hosted, st: PL.Step, ghost c: PM.ChanId)
      requires h.Valid() && PL.Enabled(PL.After(h.steps), st) && !st.Deliver?
      modifies h, h.session, h.session.presence, h.session.chans
      ensures h.Valid() && h.steps == old(h.steps) + [st] && PL.After(h.steps) == PL.Do(old(PL.After(h.steps)), st)
      ensures old(h.session.chans) <= h.session.chans
      ensures forall k: nat | |old(h.session.chans)| <= k < |h.session.chans| :: fresh(h.session.chans[k])
      ensures h.session.ReadFrom(c) == old(h.session.ReadFrom(c))
    {
      PM.ReadOnlyByReading(h.session.ops, PL.OpOf(st), c);
      h.session.Perform(PL.OpOf(st));
      h.Took(st);
    }

    /** The connection is gone: unregister first, then erase the peer's presence. */
    method Stop(h: Hosted)
      requires h.Valid() && PL.In(PL.After(h.steps), id, PL.Joined)
      modifies h, h.session, h.session.presence, h.session.chans
      ensures h.Valid() && h.steps == old(h.steps) + [PL.StopListening(id)] + [PL.StopPresence(id)]
      ensures id !in h.session.broadcastListeners && id !in h.session.presence.entries
      ensures PL.In(PL.After(h.steps), id, PL.Gone)
      ensures h.session.ops == old(h.session.ops) + [PM.RemoveListener(id)] + [PM.UpdatePresence(id, PM.Erase)]
    {
      h.session.BroadcastRemoveListener(id);
      h.Took(PL.StopListening(id));
      Erase(h);
    }

    method Erase(h: Hosted)
      requires h.Valid() && PL.In(PL.After(h.steps), id, PL.Leaving)
      modifies h, h.session, h.session.presence, h.session.chans
      ensures h.Valid() && h.steps == old(h.steps) + [PL.StopPresence(id)] && PL.In(PL.After(h.steps), id, PL.Gone)
      ensures h.session.ops == old(h.session.ops) + [PM.UpdatePresence(id, PM.Erase)]
      ensures id !in h.session.presence.entries
      ensures h.session.broadcastListeners == old(h.session.broadcastListeners)
    {
      ghost var before := h.session.ops;
      h.session.UpdatePresenceMetaForPeer(id, PM.Erase);
      PM.RunSnoc(before, PM.UpdatePresence(id, PM.Erase));
      h.Took(PL.StopPresence(id));
    }

    /** A turn of the loop, or something elsewhere while it waits. */
    method Turn(h: Hosted, listen: PS.Chan, round: Round) returns (sent: seq<PM.Message>)
      requires h.Valid() && Listening(h, listen) && Foreign(round)
      requires PL.Enabled(PL.After(h.steps), StepFor(round, listen.index))
      modifies h, h.session, h.session.presence, h.session.chans
      ensures h.Valid() && Listening(h, listen) && h.steps == old(h.steps) + [StepFor(round, listen.index)]
      ensures old(h.session.chans) <= h.session.chans
      ensures forall k: nat | |old(h.session.chans)| <= k < |h.session.chans| :: fresh(h.session.chans[k])
      ensures h.session.ReadFrom(listen.index) == old(h.session.ReadFrom(listen.index)) + sent
    {
      match round
      case Message =>
        sent := Forward(h, listen);
      case Other(st) =>
        Elsewhere(h, st, listen.index);
        sent := [];
    }

    /** What happens elsewhere is not the end of this connection. */
    predicate Foreign(round: Round) {
      round.Other? ==> !round.step.Deliver? && round.step != PL.StopListening(id) && round.step != PL.StopPresence(id)
    }

    /** The loop after `done` rounds, having started with `steps` taken and `read` read. */
    ghost predicate Running(h: Hosted, listen: PS.Chan, rounds: seq<Round>, done: nat, steps: seq<PL.Step>,
                            read: seq<PM.Message>, sent: seq<PM.Message>)
      reads h, h.session, h.session.presence, h.session.chans, h.session.taken.Keys
    {
      && h.Valid() && Listening(h, listen)
      && done <= |rounds| && h.steps == steps + StepsFor(rounds[..done], listen.index)
      && h.session.ReadFrom(listen.index) == read + sent
    }

    method NextTurn(h: Hosted, listen: PS.Chan, rounds: seq<Round>, done: nat, ghost steps: seq<PL.Step>,
                    ghost read: seq<PM.Message>, sent: seq<PM.Message>) returns (sent': seq<PM.Message>)
      requires done < |rounds| && Running(h, listen, rounds, done, steps, read, sent) && Foreign(rounds[done])
      requires AllEnabled(steps, rounds, listen.index)
      modifies h, h.session, h.session.presence, h.session.chans
      ensures Running(h, listen, rounds, done + 1, steps, read, sent')
      ensures old(h.session.chans) <= h.session.chans
      ensures forall k: nat | |old(h.session.chans)| <= k < |h.session.chans| :: fresh(h.session.chans[k])
    {
      ghost var now, got := h.steps, h.session.ReadFrom(listen.index);
      var more := Turn(h, listen, rounds[done]);
      sent' := sent + more;
      OneMoreRound(steps, rounds, listen.index, done, now, h.steps);
      MoreSent(read, sent, more, got, h.session.ReadFrom(listen.index));
    }

    method Turns(h: Hosted, listen: PS.Chan, rounds: seq<Round>) returns (sent: seq<PM.Message>)
      requires h.Valid() && Listening(h, listen) && AllEnabled(h.steps, rounds, listen.index)
      requires forall i: nat | i < |rounds| :: Foreign(rounds[i])
      modifies h, h.session, h.session.presence, h.session.chans
      ensures h.Valid() && Listening(h, listen) && h.steps == old(h.steps) + StepsFor(rounds, listen.index)
      ensures old(h.session.chans) <= h.session.chans
      ensures forall k: nat | |old(h.session.chans)| <= k < |h.session.chans| :: fresh(h.session.chans[k])
      ensures h.session.ReadFrom(listen.index) == old(h.session.ReadFrom(listen.index)) + sent
    {
      sent := [];
      ghost var steps, read := h.steps, h.session.ReadFrom(listen.index);
      for i := 0 to |rounds|
        invariant Running(h, listen, rounds, i, steps, read, sent)
        invariant old(h.session.chans) <= h.session.chans
        invariant forall k: nat | |old(h.session.chans)| <= k < |h.session.chans| :: fresh(h.session.chans[k])
      {
        sent := NextTurn(h, listen, rounds, i, steps, read, sent);
      }
      assert rounds[..|rounds|] == rounds;
    }

    /**
     * The goroutine of a connection up to its end, with other connections joining, setting
     * their presence and stopping while it runs: what it sends is what the reference says the
     * listener reads.
     */
    method Listen(h: Hosted, listen: PS.Chan, rounds: seq<Round>) returns (sent: seq<PM.Message>)
      requires h.Valid() && Listening(h, listen) && AllEnabled(h.steps, rounds, listen.index)
      requires forall i: nat | i < |rounds| :: Foreign(rounds[i])
      modifies h, h.session, h.session.presence, h.session.chans
      ensures h.Valid()
      ensures h.steps == old(h.steps) + StepsFor(rounds, listen.index) + [PL.StopListening(id)] + [PL.StopPresence(id)]
      ensures h.session.ReadFrom(listen.index) == old(h.session.ReadFrom(listen.index)) + sent
      ensures id !in h.session.broadcastListeners && id !in h.session.presence.entries
    {
      sent := Turns(h, listen, rounds);
      ghost var ops := h.session.ops;
      PM.ReadOnlyByReading(ops, PM.RemoveListener(id), listen.index);
      PM.ReadOnlyByReading(ops + [PM.RemoveListener(id)], PM.UpdatePresence(id, PM.Erase), listen.index);
      Stop(h);
    }
  }

  /** A connection is the first to join a session. */
  method JoinNew(p: JSONSignal, room: Sid) returns (joined: Hosted, ghost listen: PS.Chan)
    requires room !in p.sessions.local
    modifies p, p.sessions
    ensures fresh(joined) && fresh(joined.session) && fresh(joined.session.presence) && fresh(listen)
    ensures joined.Valid() && PL.In(PL.After(joined.steps), p.id, PL.Joined) && joined.session.chans == [listen]
    ensures p.sid == room && p.sessions.local == old(p.sessions.local)[room := joined]
  {
    var reply, ch := p.HandleJoin(room, true, Ok(OwnMeta(room, 0, "")), Accepted, true);
    joined, listen := p.sessions.local[room], ch;
  }

  /** And its session closes under it. */
  method JoinThenClose(p: JSONSignal, room: Sid) returns (joined: Hosted, ghost listen: PS.Chan)
    requires room !in p.sessions.local
    modifies p, p.sessions
    ensures fresh(joined) && fresh(joined.session) && fresh(joined.session.presence) && fresh(listen)
    ensures joined.Valid() && PL.In(PL.After(joined.steps), p.id, PL.Joined) && joined.session.chans == [listen]
    ensures p.sid == room && p.sessions.local == old(p.sessions.local)
  {
    joined, listen := JoinNew(p, room);
    p.sessions.Remove(room);
    assert p.sessions.local == old(p.sessions.local);
  }

  /** Stopping in one session touches nothing of another. */
  method StopInFirst(p: JSONSignal, joined: Hosted, made: Hosted)
    requires joined.Valid() && PL.In(PL.After(joined.steps), p.id, PL.Joined)
    requires joined != made && joined.session != made.session && joined.session.presence != made.session.presence
    modifies joined, joined.session, joined.session.presence, joined.session.chans
    ensures joined.Valid() && PL.In(PL.After(joined.steps), p.id, PL.Gone)
    ensures p.id !in joined.session.broadcastListeners && p.id !in joined.session.presence.entries
    ensures made.session.presence.entries == old(made.session.presence.entries)
    ensures made.session.broadcastListeners == old(made.session.broadcastListeners)
  {
    p.Stop(joined);
  }

  /**
   * A connection joins, its session closes under it, it sets its presence and it ends: it is
   * gone from the session it joined, and left in a new one, where nobody listens.
   */
  method SessionClosesUnder(p: JSONSignal, room: Sid, meta: PM.Value) returns (joined: Hosted, made: Hosted)
    requires room != "" && room !in p.sessions.local
    modifies p, p.sessions
    ensures fresh(joined) && fresh(made) && joined != made && p.sessions.local == old(p.sessions.local)[room := made]
    ensures joined.Valid() && PL.In(PL.After(joined.steps), p.id, PL.Gone)
    ensures p.id !in joined.session.broadcastListeners && p.id !in joined.session.presence.entries
    ensures made.session.presence.entries == map[p.id := meta] && made.session.broadcastListeners == map[]
  {
    ghost var listen;
    joined, listen := JoinThenClose(p, room);
    made := SetThenGet(p, meta);
    StopInFirst(p, joined, made);
  }

  /** The session that a presence set makes when the node has none. */
  method SetThenGet(p: JSONSignal, meta: PM.Value) returns (made: Hosted)
    requires p.sid != "" && p.sid !in p.sessions.local
    modifies p.sessions
    ensures fresh(made) && fresh(made.session) && fresh(made.session.presence)
    ensures p.sessions.local == old(p.sessions.local)[p.sid := made]
    ensures made.session.presence.entries == map[p.id := meta] && made.session.broadcastListeners == map[]
  {
    var ok := p.HandlePresenceSet(meta, true);
    made := p.sessions.local[p.sid];
  }

  /** What can come next while a listener waits, other than the end of its own connection. */
  datatype Round = Message | Other(step: PL.Step)

  function StepFor(round: Round, c: PM.ChanId): PL.Step {
    match round
    case Message => PL.Deliver(c)
    case Other(st) => st
  }

  function StepsFor(rounds: seq<Round>, c: PM.ChanId): seq<PL.Step> {
    seq(|rounds|, i requires 0 <= i < |rounds| => StepFor(rounds[i], c))
  }

  /** Each round can be taken after the ones before it. */
  ghost predicate AllEnabled(steps: seq<PL.Step>, rounds: seq<Round>, c: PM.ChanId) {
    forall i: nat | i < |rounds| :: PL.Enabled(PL.After(steps + StepsFor(rounds[..i], c)), StepFor(rounds[i], c))
  }

  lemma OneMoreRound(steps: seq<PL.Step>, rounds: seq<Round>, c: PM.ChanId, i: nat,
                     now: seq<PL.Step>, next: seq<PL.Step>)
    requires i < |rounds| && now == steps + StepsFor(rounds[..i], c) && next == now + [StepFor(rounds[i], c)]
    ensures next == steps + StepsFor(rounds[..i + 1], c)
  {
    assert rounds[..i + 1] == rounds[..i] + [rounds[i]];
  }

  lemma MoreSent(read: seq<PM.Message>, sent: seq<PM.Message>, more: seq<PM.Message>,
                 now: seq<PM.Message>, next: seq<PM.Message>)
    requires now == read + sent && next == now + more
    ensures next == read + (sent + more)
  {
  }
}
