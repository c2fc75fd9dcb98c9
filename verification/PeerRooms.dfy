/**
 * The sessions of a node over time. A session that closes leaves the map, and the next request
 * for its id makes another; a connection stops in the session it joined, but sets its presence
 * in whatever session the map has for its id by then.
 */
module PeerRooms {
  import opened SessionMeta
  import opened PresenceModel
  import PL = PeerLifecycle

  /** A session object, open or closed. */
  type RoomId = nat

  /** The id a connection joined with, and the session it got. */
  datatype Conn = Conn(sid: Sid, room: RoomId, phase: PL.Phase)

  datatype Node = Node(local: map<Sid, RoomId>, rooms: seq<Session>, conns: map<PeerId, Conn>)

  datatype Step =
    | Join(peer: PeerId, sid: Sid)
    | SetPresence(peer: PeerId, value: Value)
    | StopListening(peer: PeerId)
    | StopPresence(peer: PeerId)
    | Close(sid: Sid)
    | Deliver(room: RoomId, chan: ChanId)

  predicate In(n: Node, p: PeerId, phase: PL.Phase) {
    p in n.conns && n.conns[p].phase == phase
  }

  /** A connection that joined under the empty id is taken for one that has not joined. */
  predicate Enabled(n: Node, st: Step) {
    match st
    case Join(p, _) => p !in n.conns
    case SetPresence(p, _) => p in n.conns && n.conns[p].sid != ""
    case StopListening(p) => In(n, p, PL.Joined)
    case StopPresence(p) => In(n, p, PL.Leaving)
    case Close(sid) => sid in n.local
    case Deliver(r, _) => r < |n.rooms|
  }

  /** The session a request for `sid` gets: the one in the map, or the next one to be made. */
  function RoomFor(n: Node, sid: Sid): RoomId {
    if sid in n.local then n.local[sid] else |n.rooms|
  }

  function Opened(n: Node, sid: Sid): Node {
    if sid in n.local then n else n.(local := n.local[sid := |n.rooms|], rooms := n.rooms + [EMPTY])
  }

  function InRoom(n: Node, r: RoomId, op: Op): Node {
    if r < |n.rooms| then n.(rooms := n.rooms[r := Apply(n.rooms[r], op)]) else n
  }

  function Do(n: Node, st: Step): Node {
    match st
    case Join(p, sid) =>
      var r := RoomFor(n, sid);
      InRoom(Opened(n, sid), r, AddListener(p)).(conns := n.conns[p := Conn(sid, r, PL.Joined)])
    case SetPresence(p, v) =>
      if p in n.conns then
        InRoom(Opened(n, n.conns[p].sid), RoomFor(n, n.conns[p].sid), UpdatePresence(p, Set(v)))
      else n
    case StopListening(p) =>
      if p in n.conns then
        InRoom(n, n.conns[p].room, RemoveListener(p)).(conns := n.conns[p := n.conns[p].(phase := PL.Leaving)])
      else n
    case StopPresence(p) =>
      if p in n.conns then
        InRoom(n, n.conns[p].room, UpdatePresence(p, Erase)).(conns := n.conns[p := n.conns[p].(phase := PL.Gone)])
      else n
    case Close(sid) => n.(local := n.local - {sid})
    case Deliver(r, c) => InRoom(n, r, Read(c))
  }

  const NOTHING := Node(map[], [], map[])

  predicate Steps(steps: seq<Step>) {
    steps == [] || (Steps(steps[..|steps| - 1]) && Enabled(After(steps[..|steps| - 1]), steps[|steps| - 1]))
  }

  function After(steps: seq<Step>): Node {
    if steps == [] then NOTHING else Do(After(steps[..|steps| - 1]), steps[|steps| - 1])
  }

  // ---- what a run says about the presence of a peer ----

  predicate Sets(st: Step, p: PeerId) {
    st.SetPresence? && st.peer == p
  }

  /** Step `i` closes the session `p` had joined. */
  predicate ClosesRoomOf(steps: seq<Step>, i: nat, p: PeerId) {
    i < |steps| && steps[i].Close? && Join(p, steps[i].sid) in steps[..i]
  }

  ghost predicate RoomClosed(steps: seq<Step>, p: PeerId) {
    exists i: nat :: ClosesRoomOf(steps, i, p)
  }

  /** `p` sets its presence after the session it had joined closed, or after its connection erased it. */
  ghost predicate SetInVain(steps: seq<Step>, p: PeerId) {
    exists i: nat, k: nat :: i < k < |steps| && Sets(steps[k], p)
                             && (steps[i] == StopPresence(p) || ClosesRoomOf(steps, i, p))
  }

  predicate Present(n: Node, p: PeerId, r: RoomId) {
    r < |n.rooms| && p in n.rooms[r].presence
  }

  /** `p` is present in a session other than the one it joined. */
  ghost predicate Strays(n: Node, p: PeerId) {
    p in n.conns && exists r: RoomId :: Present(n, p, r) && r != n.conns[p].room
  }

  ghost predicate Somewhere(n: Node, p: PeerId) {
    exists r: RoomId :: Present(n, p, r)
  }

  lemma ClosedSnoc(steps: seq<Step>, st: Step, p: PeerId)
    ensures RoomClosed(steps + [st], p) <==> RoomClosed(steps, p) || (st.Close? && Join(p, st.sid) in steps)
  {
    var all := steps + [st];
    assert forall i: nat | i < |steps| :: all[i] == steps[i] && all[..i] == steps[..i];
    assert all[..|steps|] == steps && all[|steps|] == st;
    if RoomClosed(steps, p) {
      var i: nat :| ClosesRoomOf(steps, i, p);
      assert ClosesRoomOf(all, i, p);
    }
    if st.Close? && Join(p, st.sid) in steps {
      assert ClosesRoomOf(all, |steps|, p);
    }
    if RoomClosed(all, p) {
      var i: nat :| ClosesRoomOf(all, i, p);
      assert i < |steps| ==> ClosesRoomOf(steps, i, p);
    }
  }

  lemma VainSnoc(steps: seq<Step>, st: Step, p: PeerId)
    ensures SetInVain(steps + [st], p) <==>
            SetInVain(steps, p) || (Sets(st, p) && (StopPresence(p) in steps || RoomClosed(steps, p)))
  {
    var all := steps + [st];
    assert forall i: nat | i < |steps| :: all[i] == steps[i] && all[..i] == steps[..i];
    assert forall i: nat | i < |steps| :: ClosesRoomOf(all, i, p) <==> ClosesRoomOf(steps, i, p);
    assert all[|steps|] == st;
    if SetInVain(steps, p) {
      var i: nat, k: nat :| i < k < |steps| && Sets(steps[k], p)
                            && (steps[i] == StopPresence(p) || ClosesRoomOf(steps, i, p));
      assert Sets(all[k], p);
    }
    if Sets(st, p) && StopPresence(p) in steps {
      var i: nat :| i < |steps| && steps[i] == StopPresence(p);
      assert all[i] == StopPresence(p) && Sets(all[|steps|], p);
    }
    if Sets(st, p) && RoomClosed(steps, p) {
      var i: nat :| ClosesRoomOf(steps, i, p);
      assert ClosesRoomOf(all, i, p) && Sets(all[|steps|], p);
    }
    if SetInVain(all, p) {
      var i: nat, k: nat :| i < k < |all| && Sets(all[k], p)
                            && (all[i] == StopPresence(p) || ClosesRoomOf(all, i, p));
      if k < |steps| {
        assert Sets(steps[k], p);
      }
    }
  }

  // ---- the invariant ----

  ghost predicate Ranges(n: Node) {
    && (forall sid | sid in n.local :: n.local[sid] < |n.rooms|)
    && (forall p | p in n.conns :: n.conns[p].room < |n.rooms|)
  }

  /** The map has for the id of a connection the session it joined, until that is closed and never after. */
  ghost predicate RoomsInv(n: Node, steps: seq<Step>) {
    forall p | p in n.conns :: RoomInv(n, steps, p)
  }

  /** A connection is where its own steps have taken it. */
  ghost predicate StagesInv(n: Node, steps: seq<Step>) {
    && (forall p :: In(n, p, PL.Gone) <==> StopPresence(p) in steps)
    && (forall p :: In(n, p, PL.Joined) <==> p in n.conns && StopListening(p) !in steps)
  }

  /** Whoever took a step has joined. */
  ghost predicate KnownInv(n: Node, steps: seq<Step>) {
    && (forall p | StopListening(p) in steps :: p in n.conns)
    && (forall p, sid | Join(p, sid) in steps :: p in n.conns)
    && (forall p, v | SetPresence(p, v) in steps :: p in n.conns)
  }

  ghost predicate PhasesInv(n: Node, steps: seq<Step>) {
    StagesInv(n, steps) && KnownInv(n, steps)
  }

  ghost predicate PresenceInv(n: Node, steps: seq<Step>) {
    && (forall p | Somewhere(n, p) :: p in n.conns)
    && (forall p | p in n.conns ::
          SetInVain(steps, p) <==> if n.conns[p].phase.Gone? then Somewhere(n, p) else Strays(n, p))
  }

  ghost predicate Inv(n: Node, steps: seq<Step>) {
    Ranges(n) && RoomsInv(n, steps) && PhasesInv(n, steps) && PresenceInv(n, steps)
  }

  lemma RangesKept(n: Node, st: Step)
    requires Ranges(n) && Enabled(n, st)
    ensures Ranges(Do(n, st)) && |n.rooms| <= |Do(n, st).rooms|
  {}

  lemma StagesKept(n: Node, steps: seq<Step>, st: Step)
    requires PhasesInv(n, steps) && Enabled(n, st)
    ensures StagesInv(Do(n, st), steps + [st])
  {
    assert forall x :: x in steps + [st] <==> x in steps || x == st;
  }

  lemma KnownKept(n: Node, steps: seq<Step>, st: Step)
    requires KnownInv(n, steps) && Enabled(n, st)
    ensures KnownInv(Do(n, st), steps + [st])
  {
    assert forall x :: x in steps + [st] <==> x in steps || x == st;
  }

  ghost predicate RoomInv(n: Node, steps: seq<Step>, p: PeerId)
    requires p in n.conns
  {
    var c := n.conns[p];
    && Join(p, c.sid) in steps && (forall sid | Join(p, sid) in steps :: sid == c.sid)
    && (RoomFor(n, c.sid) == c.room <==> !RoomClosed(steps, p))
  }

  lemma RoomKept(n: Node, steps: seq<Step>, st: Step, p: PeerId)
    requires Ranges(n) && Enabled(n, st) && p in n.conns && RoomInv(n, steps, p)
    ensures p in Do(n, st).conns && RoomInv(Do(n, st), steps + [st], p)
  {
    assert forall x :: x in steps + [st] <==> x in steps || x == st;
    ClosedSnoc(steps, st, p);
  }

  lemma RoomJoined(n: Node, steps: seq<Step>, p: PeerId, sid: Sid)
    requires Ranges(n) && PhasesInv(n, steps) && p !in n.conns
    ensures p in Do(n, Join(p, sid)).conns && RoomInv(Do(n, Join(p, sid)), steps + [Join(p, sid)], p)
  {
    var all := steps + [Join(p, sid)];
    assert forall x :: x in all <==> x in steps || x == Join(p, sid);
    assert forall i: nat | i < |steps| :: all[..i] == steps[..i];
    forall i: nat ensures !ClosesRoomOf(all, i, p) {
      if i < |steps| {
        assert forall x | x in steps[..i] :: x in steps;
      }
    }
  }

  lemma RoomsKept(n: Node, steps: seq<Step>, st: Step)
    requires Ranges(n) && RoomsInv(n, steps) && PhasesInv(n, steps) && Enabled(n, st)
    ensures RoomsInv(Do(n, st), steps + [st])
  {
    forall p | p in Do(n, st).conns ensures RoomInv(Do(n, st), steps + [st], p) {
      if p in n.conns {
        RoomKept(n, steps, st, p);
      } else {
        RoomJoined(n, steps, p, st.sid);
      }
    }
  }

  /** Which presence a step changes: that of the peer it is about, in one session. */
  lemma PresenceStep(n: Node, st: Step, p: PeerId, r: RoomId)
    requires Ranges(n) && Enabled(n, st)
    ensures Present(Do(n, st), p, r) <==>
            || (Sets(st, p) && r == RoomFor(n, n.conns[p].sid))
            || (Present(n, p, r) && !(st == StopPresence(p) && r == n.conns[p].room))
  {}

  lemma SomewhereStep(n: Node, st: Step, p: PeerId)
    requires Ranges(n) && Enabled(n, st)
    ensures Somewhere(Do(n, st), p) <==>
            if Sets(st, p) then true else if st == StopPresence(p) then Strays(n, p) else Somewhere(n, p)
  {
    forall r: RoomId
      ensures Present(Do(n, st), p, r) <==>
              || (Sets(st, p) && r == RoomFor(n, n.conns[p].sid))
              || (Present(n, p, r) && !(st == StopPresence(p) && r == n.conns[p].room))
    {
      PresenceStep(n, st, p, r);
    }
    assert Sets(st, p) ==> Present(Do(n, st), p, RoomFor(n, n.conns[p].sid));
  }

  lemma StraysStep(n: Node, st: Step, p: PeerId)
    requires Ranges(n) && Enabled(n, st) && p in n.conns
    ensures Strays(Do(n, st), p) <==> Strays(n, p) || (Sets(st, p) && RoomFor(n, n.conns[p].sid) != n.conns[p].room)
  {
    forall r: RoomId
      ensures Present(Do(n, st), p, r) <==>
              || (Sets(st, p) && r == RoomFor(n, n.conns[p].sid))
              || (Present(n, p, r) && !(st == StopPresence(p) && r == n.conns[p].room))
    {
      PresenceStep(n, st, p, r);
    }
    assert Sets(st, p) ==> Present(Do(n, st), p, RoomFor(n, n.conns[p].sid));
    assert Do(n, st).conns[p].room == n.conns[p].room;
  }

  lemma PeerPresenceKept(n: Node, steps: seq<Step>, st: Step, p: PeerId)
    requires Inv(n, steps) && Enabled(n, st) && p in n.conns
    ensures p in Do(n, st).conns
    ensures SetInVain(steps + [st], p) <==>
            if Do(n, st).conns[p].phase.Gone? then Somewhere(Do(n, st), p) else Strays(Do(n, st), p)
  {
    VainSnoc(steps, st, p);
    SomewhereStep(n, st, p);
    StraysStep(n, st, p);
  }

  /** A connection that has just joined is present nowhere. */
  lemma JoinedPresence(n: Node, steps: seq<Step>, p: PeerId, sid: Sid)
    requires Inv(n, steps) && p !in n.conns
    ensures !SetInVain(steps + [Join(p, sid)], p) && !Strays(Do(n, Join(p, sid)), p)
  {
    VainSnoc(steps, Join(p, sid), p);
    SomewhereStep(n, Join(p, sid), p);
  }

  lemma PresenceKept(n: Node, steps: seq<Step>, st: Step)
    requires Inv(n, steps) && Enabled(n, st)
    ensures PresenceInv(Do(n, st), steps + [st])
  {
    var n' := Do(n, st);
    forall p ensures Somewhere(n', p) ==> p in n'.conns {
      SomewhereStep(n, st, p);
    }
    forall p | p in n'.conns
      ensures SetInVain(steps + [st], p) <==> if n'.conns[p].phase.Gone? then Somewhere(n', p) else Strays(n', p)
    {
      if p in n.conns {
        PeerPresenceKept(n, steps, st, p);
      } else {
        JoinedPresence(n, steps, p, st.sid);
      }
    }
  }

  lemma InvKept(n: Node, steps: seq<Step>, st: Step)
    requires Inv(n, steps) && Enabled(n, st)
    ensures Inv(Do(n, st), steps + [st])
  {
    RangesKept(n, st);
    RoomsKept(n, steps, st);
    StagesKept(n, steps, st);
    KnownKept(n, steps, st);
    PresenceKept(n, steps, st);
  }

  lemma InvAtFirst()
    ensures Inv(NOTHING, [])
  {}

  lemma {:induction false} InvAlways(steps: seq<Step>)
    requires Steps(steps)
    ensures Inv(After(steps), steps)
  {
    if steps == [] {
      InvAtFirst();
    } else {
      var before, last := steps[..|steps| - 1], steps[|steps| - 1];
      InvAlways(before);
      InvKept(After(before), before, last);
      assert steps == before + [last];
    }
  }

  // ---- the main results ----

  /**
   * Over every run of joins, presence sets, stops and closes of sessions: a set goes to the
   * session a connection joined until that closes and never after; a peer whose connection is
   * over is still present in some session if and only if it set its presence after that session
   * closed or after it erased it; and once all connections are over without such a set, no
   * session shows anybody.
   */
  lemma PresenceLeftExactly(steps: seq<Step>)
    requires Steps(steps)
    ensures var n := After(steps);
            && (forall p | p in n.conns ::
                  RoomFor(n, n.conns[p].sid) == n.conns[p].room <==> !RoomClosed(steps, p))
            && (forall p | In(n, p, PL.Gone) :: Somewhere(n, p) <==> SetInVain(steps, p))
            && (forall p | p in n.conns && !In(n, p, PL.Gone) :: Strays(n, p) <==> SetInVain(steps, p))
            && ((forall p | p in n.conns :: In(n, p, PL.Gone) && !SetInVain(steps, p)) ==> forall p :: !Somewhere(n, p))
  {
    InvAlways(steps);
  }

  /** The presence of `p` in session `r` is out of reach of its connection: it joined another, or is over. */
  predicate OutOfReach(n: Node, p: PeerId, r: RoomId) {
    Present(n, p, r) && p in n.conns && (r != n.conns[p].room || n.conns[p].phase.Gone?)
  }

  lemma OutOfReachStep(n: Node, st: Step, p: PeerId, r: RoomId)
    requires Ranges(n) && Enabled(n, st) && OutOfReach(n, p, r)
    ensures OutOfReach(Do(n, st), p, r)
  {
    PresenceStep(n, st, p, r);
  }

  /** No later step takes such a presence away. */
  lemma {:induction false} LeftForGood(steps: seq<Step>, more: seq<Step>, p: PeerId, r: RoomId)
    requires Steps(steps + more) && Steps(steps) && OutOfReach(After(steps), p, r)
    ensures OutOfReach(After(steps + more), p, r)
    decreases |more|
  {
    if more == [] {
      assert steps + more == steps;
    } else {
      var before, last := more[..|more| - 1], more[|more| - 1];
      assert (steps + more)[..|steps + more| - 1] == steps + before;
      LeftForGood(steps, before, p, r);
      InvAlways(steps + before);
      OutOfReachStep(After(steps + before), last, p, r);
    }
  }

  // ---- each session by itself ----

  /** Exactly the connections that joined a session and have not stopped listen in it. */
  ghost predicate ListenersAreJoined(n: Node) {
    forall r: RoomId, p :: Listens(n, p, r) <==> In(n, p, PL.Joined) && n.conns[p].room == r
  }

  predicate Listens(n: Node, p: PeerId, r: RoomId) {
    r < |n.rooms| && p in n.rooms[r].listeners
  }

  /** Which listener a step changes: that of the peer it is about, in one session. */
  lemma ListenerStep(n: Node, st: Step, p: PeerId, r: RoomId)
    requires Ranges(n) && Enabled(n, st)
    ensures Listens(Do(n, st), p, r) <==>
            || (st.Join? && st.peer == p && r == RoomFor(n, st.sid))
            || (Listens(n, p, r) && !(st == StopListening(p) && r == n.conns[p].room))
  {}

  lemma ListenersKept(n: Node, st: Step)
    requires Ranges(n) && ListenersAreJoined(n) && Enabled(n, st)
    ensures ListenersAreJoined(Do(n, st))
  {
    forall r: RoomId, p
      ensures Listens(Do(n, st), p, r) <==> In(Do(n, st), p, PL.Joined) && Do(n, st).conns[p].room == r
    {
      ListenerStep(n, st, p, r);
    }
  }

  /** What a step does in session `r`. */
  function OpsFor(n: Node, st: Step, r: RoomId): seq<Op>
    requires Enabled(n, st)
  {
    match st
    case Join(p, sid) => if RoomFor(n, sid) == r then [AddListener(p)] else []
    case SetPresence(p, v) => if RoomFor(n, n.conns[p].sid) == r then [UpdatePresence(p, Set(v))] else []
    case StopListening(p) => if n.conns[p].room == r then [RemoveListener(p)] else []
    case StopPresence(p) => if n.conns[p].room == r then [UpdatePresence(p, Erase)] else []
    case Close(_) => []
    case Deliver(room, c) => if room == r then [Read(c)] else []
  }

  /** What a run has done in session `r`. */
  function RoomOps(steps: seq<Step>, r: RoomId): seq<Op>
    requires Steps(steps)
  {
    if steps == [] then []
    else
      var before, last := steps[..|steps| - 1], steps[|steps| - 1];
      RoomOps(before, r) + OpsFor(After(before), last, r)
  }

  lemma RoomStep(n: Node, st: Step, r: RoomId)
    requires Ranges(n) && Enabled(n, st)
    ensures var ops := OpsFor(n, st, r);
            && |ops| <= 1
            && (r < |n.rooms| ==>
                  && r < |Do(n, st).rooms|
                  && Do(n, st).rooms[r] == (if ops == [] then n.rooms[r] else Apply(n.rooms[r], ops[0])))
            && (|n.rooms| <= r < |Do(n, st).rooms| ==> ops != [] && Do(n, st).rooms[r] == Apply(EMPTY, ops[0]))
            && (|Do(n, st).rooms| <= r ==> ops == [])
  {}

  lemma RunMore(ops: seq<Op>, more: seq<Op>)
    requires |more| <= 1
    ensures Run(ops + more) == if more == [] then Run(ops) else Apply(Run(ops), more[0])
  {
    if more == [] {
      assert ops + more == ops;
    } else {
      assert more == [more[0]];
      RunSnoc(ops, more[0]);
    }
  }

  /**
   * Over every run: each session is what its own operations make of it, so that all that holds
   * of the runs of one session holds of every session of the node; and its listeners are
   * exactly the connections that joined it and have not stopped.
   */
  lemma {:induction false} RoomsAreRuns(steps: seq<Step>)
    requires Steps(steps)
    ensures var n := After(steps);
            && ListenersAreJoined(n)
            && (forall p, sid | Join(p, sid) in steps :: In(n, p, PL.Joined) <==> StopListening(p) !in steps)
            && (forall r: RoomId ::
                  if r < |n.rooms| then n.rooms[r] == Run(RoomOps(steps, r)) else RoomOps(steps, r) == [])
  {
    if steps != [] {
      var before, last := steps[..|steps| - 1], steps[|steps| - 1];
      var n, n' := After(before), After(steps);
      RoomsAreRuns(before);
      InvAlways(before);
      InvAlways(steps);
      ListenersKept(n, last);
      forall r: RoomId
        ensures if r < |n'.rooms| then n'.rooms[r] == Run(RoomOps(steps, r)) else RoomOps(steps, r) == []
      {
        RoomStep(n, last, r);
        RunMore(RoomOps(before, r), OpsFor(n, last, r));
      }
    }
  }

  /** Session `r` shows `p` with `v`. */
  predicate Shows(n: Node, p: PeerId, r: RoomId, v: Value) {
    Present(n, p, r) && n.rooms[r].presence[p] == v
  }

  /** The last of the steps by which `p` reached session `r` set `v` in it. */
  predicate LastSetIn(steps: seq<Step>, p: PeerId, r: RoomId, v: Value)
    requires Steps(steps)
  {
    steps != []
    && var before, last := steps[..|steps| - 1], steps[|steps| - 1];
       if Sets(last, p) && RoomFor(After(before), After(before).conns[p].sid) == r then last.value == v
       else if last == StopPresence(p) && After(before).conns[p].room == r then false
       else LastSetIn(before, p, r, v)
  }

  lemma ShowsStep(n: Node, st: Step, p: PeerId, r: RoomId, v: Value)
    requires Ranges(n) && Enabled(n, st)
    ensures Shows(Do(n, st), p, r, v) <==>
            if Sets(st, p) && RoomFor(n, n.conns[p].sid) == r then st.value == v
            else if st == StopPresence(p) && n.conns[p].room == r then false
            else Shows(n, p, r, v)
  {}

  /**
   * For every run, session, peer and value: the session shows the peer with that value if and
   * only if the last step by which the peer reached that session set it.
   */
  lemma {:induction false} RoomShowsLastSet(steps: seq<Step>, p: PeerId, r: RoomId, v: Value)
    requires Steps(steps)
    ensures Shows(After(steps), p, r, v) <==> LastSetIn(steps, p, r, v)
  {
    if steps != [] {
      var before := steps[..|steps| - 1];
      RoomShowsLastSet(before, p, r, v);
      InvAlways(before);
      ShowsStep(After(before), steps[|steps| - 1], p, r, v);
    }
  }

  lemma StepsSnoc(steps: seq<Step>, st: Step)
    requires Steps(steps) && Enabled(After(steps), st)
    ensures Steps(steps + [st]) && After(steps + [st]) == Do(After(steps), st)
  {
    assert (steps + [st])[..|steps|] == steps;
  }

  /** A connection whose session closes under it sets its presence and stops: it stays present in the new session. */
  lemma PresenceInNewSession(p: PeerId, sid: Sid, v: Value)
    requires sid != ""
    ensures var steps := [Join(p, sid), Close(sid), SetPresence(p, v), StopListening(p), StopPresence(p)];
            && Steps(steps) && SetInVain(steps, p) && In(After(steps), p, PL.Gone)
            && After(steps).local == map[sid := 1] && OutOfReach(After(steps), p, 1)
            && p !in After(steps).rooms[1].listeners
  {
    var s1 := [Join(p, sid)];
    var s2 := s1 + [Close(sid)];
    var s3 := s2 + [SetPresence(p, v)];
    var s4 := s3 + [StopListening(p)];
    var s5 := s4 + [StopPresence(p)];
    assert s1 == [] + [Join(p, sid)];
    StepsSnoc([], Join(p, sid));
    StepsSnoc(s1, Close(sid));
    StepsSnoc(s2, SetPresence(p, v));
    StepsSnoc(s3, StopListening(p));
    StepsSnoc(s4, StopPresence(p));
    assert s5[..1] == s1 && ClosesRoomOf(s5, 1, p) && Sets(s5[2], p);
    assert s5 == [Join(p, sid), Close(sid), SetPresence(p, v), StopListening(p), StopPresence(p)];
  }
}
