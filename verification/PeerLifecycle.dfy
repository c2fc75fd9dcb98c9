/**
 * The connections that drive a session: a connection joins, may set its presence, and at its
 * end first unregisters its listener and then erases its presence.
 */
module PeerLifecycle {
  import opened PresenceModel

  /** `Leaving` lies between the two steps of the end of a connection. */
  datatype Phase = Joined | Leaving | Gone

  datatype World = World(session: Session, peers: map<PeerId, Phase>)

  datatype Step =
    | Join(peer: PeerId)
    | SetPresence(peer: PeerId, value: Value)
    | StopListening(peer: PeerId)
    | StopPresence(peer: PeerId)
    | Deliver(chan: ChanId)

  predicate In(w: World, p: PeerId, phase: Phase) {
    p in w.peers && w.peers[p] == phase
  }

  /** Peer ids are not reused, and a connection is not joined twice. */
  predicate Enabled(w: World, st: Step) {
    match st
    case Join(p) => p !in w.peers
    case SetPresence(p, _) => p in w.peers
    case StopListening(p) => In(w, p, Joined)
    case StopPresence(p) => In(w, p, Leaving)
    case Deliver(_) => true
  }

  function OpOf(st: Step): Op {
    match st
    case Join(p) => AddListener(p)
    case SetPresence(p, v) => UpdatePresence(p, Set(v))
    case StopListening(p) => RemoveListener(p)
    case StopPresence(p) => UpdatePresence(p, Erase)
    case Deliver(c) => Read(c)
  }

  function Do(w: World, st: Step): World {
    World(Apply(w.session, OpOf(st)),
          match st
          case Join(p) => w.peers[p := Joined]
          case StopListening(p) => w.peers[p := Leaving]
          case StopPresence(p) => w.peers[p := Gone]
          case _ => w.peers)
  }

  const NOBODY := World(EMPTY, map[])

  predicate Steps(steps: seq<Step>) {
    steps == [] || (Steps(steps[..|steps| - 1]) && Enabled(After(steps[..|steps| - 1]), steps[|steps| - 1]))
  }

  function After(steps: seq<Step>): World {
    if steps == [] then NOBODY else Do(After(steps[..|steps| - 1]), steps[|steps| - 1])
  }

  lemma StepsSnoc(steps: seq<Step>, st: Step)
    requires Steps(steps) && Enabled(After(steps), st)
    ensures Steps(steps + [st]) && After(steps + [st]) == Do(After(steps), st)
  {
    assert (steps + [st])[..|steps|] == steps;
  }

  /** A presence set for `p` comes after the connection of `p` has erased its presence. */
  predicate SetTooLate(steps: seq<Step>, p: PeerId) {
    exists i: nat, j: nat ::
      i < j < |steps| && steps[i] == StopPresence(p) && steps[j].SetPresence? && steps[j].peer == p
  }

  ghost predicate ListenersAreJoined(w: World) {
    forall p :: p in w.session.listeners <==> In(w, p, Joined)
  }

  ghost predicate GoneHaveStopped(w: World, steps: seq<Step>) {
    forall p :: In(w, p, Gone) <==> StopPresence(p) in steps
  }

  ghost predicate PresentAreAround(w: World, steps: seq<Step>) {
    && (forall p | p in w.session.presence :: In(w, p, Joined) || In(w, p, Leaving) || SetTooLate(steps, p))
    && (forall p | SetTooLate(steps, p) :: p in w.session.presence)
  }

  ghost predicate PeersInv(w: World, steps: seq<Step>) {
    ListenersAreJoined(w) && GoneHaveStopped(w, steps) && PresentAreAround(w, steps)
  }

  lemma LateSnoc(steps: seq<Step>, st: Step, p: PeerId)
    ensures SetTooLate(steps + [st], p) <==>
            SetTooLate(steps, p) || (st.SetPresence? && st.peer == p && StopPresence(p) in steps)
  {
    var all := steps + [st];
    if SetTooLate(steps, p) {
      var i: nat, j: nat :|
        i < j < |steps| && steps[i] == StopPresence(p) && steps[j].SetPresence? && steps[j].peer == p;
      assert all[i] == StopPresence(p) && all[j] == steps[j];
    }
    if st.SetPresence? && st.peer == p && StopPresence(p) in steps {
      var i: nat :| i < |steps| && steps[i] == StopPresence(p);
      assert all[i] == StopPresence(p) && all[|steps|] == st;
    }
    if SetTooLate(all, p) {
      var i: nat, j: nat :| i < j < |all| && all[i] == StopPresence(p) && all[j].SetPresence? && all[j].peer == p;
      if j < |steps| {
        assert steps[i] == StopPresence(p) && steps[j] == all[j];
      }
    }
  }

  lemma ListenersAreJoinedKept(w: World, st: Step)
    requires ListenersAreJoined(w) && Enabled(w, st)
    ensures ListenersAreJoined(Do(w, st))
  {}

  lemma GoneHaveStoppedKept(w: World, steps: seq<Step>, st: Step)
    requires GoneHaveStopped(w, steps) && Enabled(w, st)
    ensures GoneHaveStopped(Do(w, st), steps + [st])
  {
    assert forall x :: x in steps + [st] <==> x in steps || x == st;
  }

  lemma PresentAreAroundKept(w: World, steps: seq<Step>, st: Step)
    requires PresentAreAround(w, steps) && GoneHaveStopped(w, steps) && Enabled(w, st)
    ensures PresentAreAround(Do(w, st), steps + [st])
  {
    forall p ensures SetTooLate(steps + [st], p) <==>
                     SetTooLate(steps, p) || (st.SetPresence? && st.peer == p && StopPresence(p) in steps) {
      LateSnoc(steps, st, p);
    }
  }

  lemma PeersKept(steps: seq<Step>, st: Step)
    requires PeersInv(After(steps), steps) && Enabled(After(steps), st)
    ensures PeersInv(Do(After(steps), st), steps + [st])
  {
    ListenersAreJoinedKept(After(steps), st);
    GoneHaveStoppedKept(After(steps), steps, st);
    PresentAreAroundKept(After(steps), steps, st);
  }

  lemma {:induction false} PeersAlways(steps: seq<Step>)
    requires Steps(steps)
    ensures PeersInv(After(steps), steps)
  {
    if steps != [] {
      var before := steps[..|steps| - 1];
      PeersAlways(before);
      PeersKept(before, steps[|steps| - 1]);
      assert steps == before + [steps[|steps| - 1]];
    }
  }

  /**
   * Over every run: the listeners are exactly the joined peers; the presence of a peer
   * outlives its connection exactly when a presence set came after the connection erased it;
   * and without such a late set every peer present has joined and not yet finished leaving,
   * so that once all have gone both maps are empty.
   */
  lemma PeersComeAndGo(steps: seq<Step>)
    requires Steps(steps)
    ensures var w := After(steps);
            && (forall p :: p in w.session.listeners <==> In(w, p, Joined))
            && (forall p | In(w, p, Gone) :: p in w.session.presence <==> SetTooLate(steps, p))
            && (forall p | p in w.session.presence && !SetTooLate(steps, p) :: In(w, p, Joined) || In(w, p, Leaving))
            && ((forall p | p in w.peers :: w.peers[p] == Gone) && (forall p :: !SetTooLate(steps, p)) ==>
                  w.session.listeners == map[] && w.session.presence == map[])
  {
    PeersAlways(steps);
  }

  /** Over every run a connection is where its own steps have taken it. */
  lemma {:induction false} PhasesTold(steps: seq<Step>, p: PeerId)
    requires Steps(steps)
    ensures var w := After(steps);
            && (p in w.peers <==> Join(p) in steps)
            && (In(w, p, Joined) <==> Join(p) in steps && StopListening(p) !in steps)
            && (In(w, p, Leaving) <==> StopListening(p) in steps && StopPresence(p) !in steps)
            && (In(w, p, Gone) <==> StopPresence(p) in steps)
            && (StopPresence(p) in steps ==> StopListening(p) in steps)
            && (StopListening(p) in steps ==> Join(p) in steps)
  {
    if steps != [] {
      var before, last := steps[..|steps| - 1], steps[|steps| - 1];
      PhasesTold(before, p);
      assert steps == before + [last];
    }
  }

  /** A run in which a connection sets its presence after it has erased it, and stays present. */
  lemma PresenceOutlivesConnection(p: PeerId, v: Value)
    ensures var steps := [Join(p), StopListening(p), StopPresence(p), SetPresence(p, v)];
            && Steps(steps) && SetTooLate(steps, p)
            && In(After(steps), p, Gone) && p in After(steps).session.presence
  {
    var s1 := [Join(p)];
    var s2 := s1 + [StopListening(p)];
    var s3 := s2 + [StopPresence(p)];
    var s4 := s3 + [SetPresence(p, v)];
    assert s1 == [] + [Join(p)];
    StepsSnoc([], Join(p));
    StepsSnoc(s1, StopListening(p));
    StepsSnoc(s2, StopPresence(p));
    StepsSnoc(s3, SetPresence(p, v));
    assert s4[2] == StopPresence(p) && s4[3] == SetPresence(p, v);
    assert s4 == [Join(p), StopListening(p), StopPresence(p), SetPresence(p, v)];
  }

  /** A channel no listener is registered with gets no message, though it may still be read. */
  lemma ReceivedKept(s: Session, op: Op, c: ChanId)
    requires c < |s.channels| && c !in s.listeners.Values
    ensures c < |Apply(s, op).channels| && Received(Apply(s, op).channels[c]) == Received(s.channels[c])
  {
    if op == Read(c) && s.channels[c].queued != [] {
      ReadReceived(s.channels[c]);
    }
  }

  /** Deserted from step `n` on, a channel has received what it had received by then. */
  lemma {:induction false} ReceivedStays(steps: seq<Step>, n: nat, c: ChanId)
    requires n <= |steps| && c < |After(steps[..n]).session.channels|
    requires forall k: nat | n <= k < |steps| :: c !in After(steps[..k]).session.listeners.Values
    ensures c < |After(steps).session.channels|
    ensures Received(After(steps).session.channels[c]) == Received(After(steps[..n]).session.channels[c])
  {
    if n == |steps| {
      assert steps[..n] == steps;
    } else {
      var before := steps[..|steps| - 1];
      assert forall k: nat | k <= |before| :: before[..k] == steps[..k];
      ReceivedStays(before, n, c);
      ReceivedKept(After(before).session, OpOf(steps[|steps| - 1]), c);
    }
  }

  /** With its peer not joined, nobody is registered with a channel. */
  lemma ChannelDeserted(steps: seq<Step>, p: PeerId, c: ChanId)
    requires Steps(steps) && Joins(steps, p, c) && !In(After(steps), p, Joined)
    ensures c !in After(steps).session.listeners.Values
  {
    PeersAlways(steps);
    OwnChannel(steps, p, c);
  }

  lemma NotJoinedAfterStop(steps: seq<Step>, p: PeerId)
    requires Steps(steps) && StopPresence(p) in steps
    ensures !In(After(steps), p, Joined)
  {
    PeersAlways(steps);
  }

  /** When a connection erases its presence, and ever after, its peer is not joined. */
  lemma NotJoined(steps: seq<Step>, i: nat, p: PeerId, k: nat)
    requires Steps(steps) && i <= k < |steps| && steps[i] == StopPresence(p)
    ensures Steps(steps[..k]) && !In(After(steps[..k]), p, Joined)
  {
    StepsPrefix(steps, k);
    if i < k {
      assert steps[..k][i] == StopPresence(p);
      NotJoinedAfterStop(steps[..k], p);
    } else {
      StepsPrefix(steps, k + 1);
      assert steps[..k + 1][..k] == steps[..k];
    }
  }

  lemma {:induction false} StepsPrefix(steps: seq<Step>, k: nat)
    requires Steps(steps) && k <= |steps|
    ensures Steps(steps[..k])
  {
    if k == |steps| {
      assert steps[..k] == steps;
    } else {
      StepsPrefix(steps[..|steps| - 1], k);
      assert steps[..|steps| - 1][..k] == steps[..k];
    }
  }

  /**
   * Neither the broadcast of its own departure nor any later one ever reaches the channel of a
   * peer: from the erase on, in every continuation, it has received what it had before.
   */
  lemma NeverOwnDeparture(steps: seq<Step>, i: nat, p: PeerId, c: ChanId)
    requires Steps(steps) && i < |steps| && steps[i] == StopPresence(p) && Joins(steps[..i], p, c)
    ensures c < |After(steps[..i]).session.channels| && c < |After(steps).session.channels|
    ensures Received(After(steps).session.channels[c]) == Received(After(steps[..i]).session.channels[c])
  {
    OwnChannel(steps[..i], p, c);
    forall k: nat | i <= k < |steps| ensures c !in After(steps[..k]).session.listeners.Values {
      NotJoined(steps, i, p, k);
      JoinsEarlier(steps[..i], steps[..k], p, c);
      ChannelDeserted(steps[..k], p, c);
    }
    ReceivedStays(steps, i, c);
  }

  lemma JoinsEarlier(early: seq<Step>, steps: seq<Step>, p: PeerId, c: ChanId)
    requires early <= steps && Joins(early, p, c)
    ensures Joins(steps, p, c)
  {
    var k: nat :| k < |early| && early[k] == Join(p) && c == |After(early[..k]).session.channels|;
    assert steps[..k] == early[..k] && steps[k] == Join(p);
  }

  /** Channel `c` was made by the join of `p`. */
  predicate Joins(steps: seq<Step>, p: PeerId, c: ChanId) {
    exists i: nat :: i < |steps| && steps[i] == Join(p) && c == |After(steps[..i]).session.channels|
  }

  /** Listeners and channels come from joins alone. */
  lemma OpShape(s: Session, op: Op)
    ensures |Apply(s, op).channels| == |s.channels| + if op.AddListener? then 1 else 0
    ensures forall q | q in Apply(s, op).listeners ::
              (q in s.listeners && Apply(s, op).listeners[q] == s.listeners[q])
              || (op == AddListener(q) && Apply(s, op).listeners[q] == |s.channels|)
  {}

  /** A channel is only ever registered for the peer whose join made it. */
  lemma {:induction false} OwnChannel(steps: seq<Step>, p: PeerId, c: ChanId)
    requires Joins(steps, p, c)
    ensures c < |After(steps).session.channels|
    ensures forall q | q in After(steps).session.listeners && After(steps).session.listeners[q] == c :: q == p
  {
    var i: nat :| i < |steps| && steps[i] == Join(p) && c == |After(steps[..i]).session.channels|;
    var before, last := steps[..|steps| - 1], steps[|steps| - 1];
    OpShape(After(before).session, OpOf(last));
    if i < |before| {
      assert before[..i] == steps[..i] && before[i] == Join(p);
      OwnChannel(before, p, c);
    } else {
      assert steps[..i] == before;
      ChannelsInRange(before);
    }
  }

  lemma {:induction false} ChannelsInRange(steps: seq<Step>)
    ensures forall q | q in After(steps).session.listeners ::
              After(steps).session.listeners[q] < |After(steps).session.channels|
  {
    if steps != [] {
      var before := steps[..|steps| - 1];
      ChannelsInRange(before);
      OpShape(After(before).session, OpOf(steps[|steps| - 1]));
    }
  }
}
