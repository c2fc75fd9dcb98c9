/** What failed operations leave behind for good: sessions that never go and leases nobody can cancel. */
module EtcdLeftovers {
  import opened SessionMeta
  import opened EtcdProtocol
  import opened EtcdEffects
  import opened EtcdLocks
  import opened EtcdLeases
  import opened EtcdSessions
  import opened EtcdHosting

  // ---- sessions whose close failed ----

  /** No close of an abandoned session is under way on its node. */
  ghost predicate NobodyCloses(s: State, n: NodeId, sid: Sid) {
    forall t: Tid | t < |s.threads| && s.threads[t].node == n && InClose(s.threads[t].pc) :: s.threads[t].pc.sid != sid
  }

  /** Nor can one start. */
  ghost predicate NobodyCanClose(s: State, n: NodeId, sid: Sid) {
    forall o: ObjId | o < |s.objects| && s.objects[o].node == n && s.objects[o].sid == sid :: !s.objects[o].status.Open?
  }

  lemma AbandonedAlone(s: State, n: NodeId, sid: Sid)
    requires SessionInv(s) && Abandoned(s, n, sid)
    ensures NobodyCloses(s, n, sid) && NobodyCanClose(s, n, sid)
  {
    forall t: Tid | t < |s.threads| && s.threads[t].node == n && InClose(s.threads[t].pc)
      ensures s.threads[t].pc.sid != sid
    {
      assert Maps(s, n, s.threads[t].pc.sid, s.threads[t].pc.obj);
    }
  }

  /** The session of the node stays the same, and no close of it gives up a lease. */
  ghost predicate Stuck(s: State, s': State, n: NodeId, sid: Sid) {
    && Abandoned(s, n, sid) && Abandoned(s', n, sid)
    && s'.nodes[n].sessions[sid] == s.nodes[n].sessions[sid]
    && s.log <= s'.log && forall k: nat | |s.log| <= k < |s'.log| :: s'.log[k] != Cancelled(n, sid)
  }

  lemma StuckByThread(s: State, t: Tid, s': State, n: NodeId, sid: Sid)
    requires SessionInv(s) && Abandoned(s, n, sid) && t < |s.threads| && StepOf(s, t, s')
    requires MuEffect(s, t, s') && ObjectEffect(s, t, s') && LogEffect(s, t, s')
    ensures Stuck(s, s', n, sid)
  {
    AbandonedStep(s, t, s', n, sid);
    AbandonedAlone(s, n, sid);
    var pc := s.threads[t].pc;
    assert Cancels(pc) || (pc.C? && pc.c.CLocal?) ==> InClose(pc);
  }

  lemma StuckStep(s: State, a: Action, n: NodeId, sid: Sid)
    requires SessionInv(s) && Enabled(s, a) && Abandoned(s, n, sid)
    ensures Stuck(s, Apply(s, a), n, sid)
  {
    if ByThread(a) {
      ApplyEffect(s, a);
      StuckByThread(s, a.tid, Apply(s, a), n, sid);
    }
  }

  lemma {:induction false} StuckRun(s: State, acts: seq<Action>, n: NodeId, sid: Sid)
    requires SessionInv(s) && LockInv(s) && Runs(s, acts) && Abandoned(s, n, sid)
    ensures Stuck(s, Exec(s, acts), n, sid)
    decreases |acts|
  {
    if acts != [] {
      SessionsKept(s, acts[0]);
      StuckStep(s, acts[0], n, sid);
      StuckRun(Apply(s, acts[0]), acts[1..], n, sid);
    }
  }

  lemma KeptStep(s: State, a: Action, n: NodeId, sid: Sid, l: Lease)
    requires SessionInv(s) && LeaseInv(s) && Enabled(s, a) && a != Expire(l)
    requires Abandoned(s, n, sid) && Grants(s, l, n, sid) && l in s.kept
    ensures Grants(Apply(s, a), l, n, sid) && l in Apply(s, a).kept
  {
    if ByThread(a) {
      ApplyEffect(s, a);
      AbandonedAlone(s, n, sid);
      KeptByThread(s, a.tid, Apply(s, a), n, sid, l);
    }
  }

  lemma KeptByThread(s: State, t: Tid, s': State, n: NodeId, sid: Sid, l: Lease)
    requires LeaseInv(s) && t < |s.threads| && StepOf(s, t, s') && MuEffect(s, t, s') && LeaseEffect(s, t, s')
    requires NobodyCloses(s, n, sid) && Grants(s, l, n, sid) && l in s.kept
    ensures Grants(s', l, n, sid) && l in s'.kept
  {
    var pc, had := s.threads[t].pc, s.nodes[s.threads[t].node].leases;
    assert Cancels(pc) ==> InClose(pc);
    assert pc.C? && pc.sid in had ==> Grants(s, had[pc.sid], s.threads[t].node, pc.sid);
  }

  lemma {:induction false} KeptWhileAbandoned(s: State, acts: seq<Action>, n: NodeId, sid: Sid, l: Lease)
    requires SessionInv(s) && LeaseInv(s) && Runs(s, acts) && Expire(l) !in acts
    requires Abandoned(s, n, sid) && Grants(s, l, n, sid) && l in s.kept
    ensures l in Exec(s, acts).kept
    decreases |acts|
  {
    if acts != [] {
      SessionsKept(s, acts[0]);
      LeasesKept(s, acts[0]);
      StuckStep(s, acts[0], n, sid);
      KeptStep(s, acts[0], n, sid, l);
      KeptWhileAbandoned(Apply(s, acts[0]), acts[1..], n, sid, l);
    }
  }

  /**
   * In every run and every continuation: a session whose close failed stays in the map of its
   * node, no close of that id is under way there or can start, and a lease for it that is kept
   * alive, be it of a later lookup, stays so until it expires by itself.
   */
  lemma AbandonedForever(s0: State, acts: seq<Action>, later: seq<Action>, n: NodeId, sid: Sid)
    requires Init(s0) && Runs(s0, acts) && Runs(Exec(s0, acts), later) && Abandoned(Exec(s0, acts), n, sid)
    ensures var s, s' := Exec(s0, acts), Exec(Exec(s0, acts), later);
            && Stuck(s, s', n, sid) && NobodyCloses(s', n, sid) && NobodyCanClose(s', n, sid)
            && (forall l: Lease | Grants(s, l, n, sid) && l in s.kept && Expire(l) !in later :: l in s'.kept)
  {
    var s := Exec(s0, acts);
    SessionsOfRun(s0, acts);
    SessionsOfRun(s, later);
    StuckRun(s, later, n, sid);
    AbandonedAlone(Exec(s, later), n, sid);
    InitLeases(s0);
    LeasesOfRun(s0, acts);
    forall l: Lease | Grants(s, l, n, sid) && l in s.kept && Expire(l) !in later ensures l in Exec(s, later).kept {
      KeptWhileAbandoned(s, later, n, sid, l);
    }
  }

  ghost function Hosted(s: State, n: NodeId): set<Sid>
    requires n < |s.nodes|
  {
    set sid | sid in s.nodes[n].sessions && Hosts(s, n, sid)
  }

  ghost function Left(s: State, n: NodeId): set<Sid>
    requires n < |s.nodes|
  {
    set sid | sid in s.nodes[n].sessions && Abandoned(s, n, sid)
  }

  /** The map of a node holds the sessions it hosts and those whose close failed. */
  lemma SessionsSplit(s: State, n: NodeId)
    requires KeyInv(s) && n < |s.nodes|
    ensures |s.nodes[n].sessions| == |Hosted(s, n)| + |Left(s, n)|
  {
    assert s.nodes[n].sessions.Keys == Hosted(s, n) + Left(s, n);
    assert Hosted(s, n) !! Left(s, n);
  }

  lemma NoneLeft(s: State, n: NodeId)
    requires n < |s.nodes|
    ensures |Left(s, n)| == 0 <==> forall sid :: !Abandoned(s, n, sid)
  {
    assert forall sid :: Abandoned(s, n, sid) <==> sid in Left(s, n);
    assert |Left(s, n)| == 0 <==> Left(s, n) == {};
  }

  /**
   * In every reachable state with the mutex free the gauge counts the sessions hosted and,
   * one too many each, those whose close failed; so it is right exactly when there are none.
   */
  lemma GaugeCountsLeftovers(s0: State, acts: seq<Action>, n: NodeId)
    requires Init(s0) && Runs(s0, acts) && n < |Exec(s0, acts).nodes| && Exec(s0, acts).nodes[n].mu.Free?
    ensures var s := Exec(s0, acts);
            && s.nodes[n].gauge == |Hosted(s, n)| + |Left(s, n)|
            && (s.nodes[n].gauge == |Hosted(s, n)| <==> forall sid :: !Abandoned(s, n, sid))
  {
    SessionsOfRun(s0, acts);
    SessionsSplit(Exec(s0, acts), n);
    NoneLeft(Exec(s0, acts), n);
  }

  // ---- leases whose handle was overwritten ----

  /** The node that asked for lease `l` holds its cancel handle. */
  predicate Handled(s: State, l: Lease) {
    l < |s.granted|
    && var Owner(n, sid) := s.granted[l]; n < |s.nodes| && sid in s.nodes[n].leases && s.nodes[n].leases[sid] == l
  }

  predicate AboutToStore(pc: Pc) {
    pc.G? && (pc.g.GKeep? || pc.g.GMu?)
  }

  /** No lookup is about to keep the lease alive or to store its handle. */
  ghost predicate Settled(s: State, l: Lease) {
    l < |s.granted|
    && forall t: Tid | t < |s.threads| && AboutToStore(s.threads[t].pc) :: s.threads[t].pc.g.lease != l
  }

  /** A lookup about to store a handle has a lease that is not stored yet. */
  ghost predicate UnstoredInv(s: State)
    requires Typed(s)
  {
    forall t: Tid | t < |s.threads| && AboutToStore(s.threads[t].pc) ::
      var pc, leases := s.threads[t].pc, s.nodes[s.threads[t].node].leases;
      pc.sid in leases ==> leases[pc.sid] != pc.g.lease
  }

  lemma UnstoredInvStep(s: State, t: Tid, s': State)
    requires Typed(s) && Typed(s') && t < |s.threads| && StepOf(s, t, s') && LockInv(s) && GrantInv(s) && UnstoredInv(s)
    requires PcEffect(s.threads[t].pc, s'.threads[t].pc) && MuEffect(s, t, s') && LeaseEffect(s, t, s')
    ensures UnstoredInv(s')
  {}

  lemma UnstoredByThread(s: State, t: Tid, s': State)
    requires LeaseInv(s) && LeaseInv(s') && UnstoredInv(s) && t < |s.threads| && Effect(s, t, s')
    ensures UnstoredInv(s')
  {
    UnstoredInvStep(s, t, s');
  }

  lemma UnstoredKeptByEnvironment(s: State, a: Action)
    requires Typed(s) && UnstoredInv(s) && Enabled(s, a) && !ByThread(a) && Typed(Apply(s, a))
    ensures UnstoredInv(Apply(s, a))
  {}

  lemma UnstoredKept(s: State, a: Action)
    requires LeaseInv(s) && UnstoredInv(s) && Enabled(s, a)
    ensures LeaseInv(Apply(s, a)) && UnstoredInv(Apply(s, a))
  {
    LeasesKept(s, a);
    if ByThread(a) {
      ApplyEffect(s, a);
      UnstoredByThread(s, a.tid, Apply(s, a));
    } else {
      UnstoredKeptByEnvironment(s, a);
    }
  }

  lemma {:induction false} UnstoredOfRun(s: State, acts: seq<Action>)
    requires LeaseInv(s) && UnstoredInv(s) && Runs(s, acts)
    ensures LeaseInv(Exec(s, acts)) && UnstoredInv(Exec(s, acts))
    decreases |acts|
  {
    if acts != [] {
      UnstoredKept(s, acts[0]);
      UnstoredOfRun(Apply(s, acts[0]), acts[1..]);
    }
  }

  lemma HandledIsSettled(s: State, l: Lease)
    requires LeaseInv(s) && UnstoredInv(s) && Handled(s, l)
    ensures Settled(s, l)
  {
    forall t: Tid | t < |s.threads| && AboutToStore(s.threads[t].pc) ensures s.threads[t].pc.g.lease != l {
      assert HasLease(s.threads[t].pc);
    }
  }

  /** The lookup of thread `t` stores a handle for `sid` on node `n`. */
  predicate Stores(s: State, a: Action, n: NodeId, sid: Sid) {
    a.Go? && a.tid < |s.threads|
    && var th := s.threads[a.tid]; th.node == n && th.pc.G? && th.pc.sid == sid && th.pc.g.GMu?
  }

  /** Some lookup does so in the course of `acts`. */
  ghost predicate StoresIn(s: State, acts: seq<Action>, n: NodeId, sid: Sid)
    requires Typed(s) && Runs(s, acts)
    decreases |acts|
  {
    acts != []
    && (Stores(s, acts[0], n, sid) || (ApplyTyped(s, acts[0]); StoresIn(Apply(s, acts[0]), acts[1..], n, sid)))
  }

  /** Step facts of a settled lease: what may happen to its handle and its keep-alive. */
  ghost predicate SettledEffect(s: State, a: Action, s': State, l: Lease)
    requires l < |s.granted|
  {
    var Owner(n, sid) := s.granted[l];
    && Settled(s', l) && s'.granted[l] == s.granted[l]
    && (l in s'.kept ==> l in s.kept && a != Expire(l))
    && (l in s.kept && a != Expire(l) && l !in s'.kept ==> Handled(s, l))
    && (Handled(s', l) ==> Handled(s, l))
    && (Handled(s, l) && l in s'.kept ==> (Handled(s', l) <==> !Stores(s, a, n, sid)))
  }

  lemma SettledByThread(s: State, t: Tid, s': State, l: Lease)
    requires LeaseInv(s) && UnstoredInv(s) && Settled(s, l) && t < |s.threads| && StepOf(s, t, s')
    requires PcEffect(s.threads[t].pc, s'.threads[t].pc) && MuEffect(s, t, s') && LeaseEffect(s, t, s')
    ensures Settled(s', l) && s'.granted[l] == s.granted[l]
    ensures l in s'.kept ==> l in s.kept
    ensures l in s.kept && l !in s'.kept ==> Handled(s, l)
  {
    var pc := s.threads[t].pc;
    assert Cancels(pc) && pc.sid in s.nodes[s.threads[t].node].leases ==>
        Grants(s, s.nodes[s.threads[t].node].leases[pc.sid], s.threads[t].node, pc.sid);
  }

  /** The thread stands at the statement that stores a handle for the owner. */
  predicate AtStore(th: Thread, owner: Owner) {
    th.node == owner.node && th.pc.G? && th.pc.sid == owner.sid && th.pc.g.GMu?
  }

  lemma HandleByThread(s: State, t: Tid, s': State, l: Lease)
    requires LeaseInv(s) && UnstoredInv(s) && Settled(s, l) && t < |s.threads| && StepOf(s, t, s')
    requires PcEffect(s.threads[t].pc, s'.threads[t].pc) && MuEffect(s, t, s') && LeaseEffect(s, t, s')
    ensures l < |s'.granted| && (Handled(s', l) ==> Handled(s, l))
    ensures Handled(s, l) && l in s'.kept ==> (Handled(s', l) <==> !AtStore(s.threads[t], s.granted[l]))
  {
    var th := s.threads[t];
    assert AboutToStore(th.pc) ==> th.pc.g.lease != l;
    assert s'.granted[l] == s.granted[l];
    var n := s.granted[l].node;
    assert n < |s.nodes| && n != th.node ==> s'.nodes[n] == s.nodes[n];
  }

  lemma SettledStep(s: State, a: Action, l: Lease)
    requires LeaseInv(s) && UnstoredInv(s) && Settled(s, l) && Enabled(s, a)
    ensures SettledEffect(s, a, Apply(s, a), l)
  {
    if ByThread(a) {
      ApplyEffect(s, a);
      SettledByThread(s, a.tid, Apply(s, a), l);
      HandleByThread(s, a.tid, Apply(s, a), l);
    }
  }

  /**
   * A settled lease without a handle never gets one, and nothing but its expiry ends its
   * keep-alive: no close can.
   */
  lemma {:induction false} UncancellableForever(s: State, acts: seq<Action>, l: Lease)
    requires LeaseInv(s) && UnstoredInv(s) && Runs(s, acts) && Settled(s, l) && !Handled(s, l)
    ensures !Handled(Exec(s, acts), l)
    ensures l in Exec(s, acts).kept <==> l in s.kept && Expire(l) !in acts
    decreases |acts|
  {
    if acts != [] {
      SettledStep(s, acts[0], l);
      UnstoredKept(s, acts[0]);
      UncancellableForever(Apply(s, acts[0]), acts[1..], l);
      assert acts == [acts[0]] + acts[1..];
    }
  }

  lemma {:induction false} NeverKeptAgain(s: State, acts: seq<Action>, l: Lease)
    requires LeaseInv(s) && UnstoredInv(s) && Runs(s, acts) && Settled(s, l) && l !in s.kept
    ensures l !in Exec(s, acts).kept
    decreases |acts|
  {
    if acts != [] {
      SettledStep(s, acts[0], l);
      UnstoredKept(s, acts[0]);
      NeverKeptAgain(Apply(s, acts[0]), acts[1..], l);
    }
  }

  lemma {:induction false} HandleUntilStored(s: State, acts: seq<Action>, l: Lease)
    requires LeaseInv(s) && UnstoredInv(s) && Runs(s, acts) && Settled(s, l) && Handled(s, l)
    requires l in Exec(s, acts).kept
    ensures Handled(Exec(s, acts), l) <==> !StoresIn(s, acts, s.granted[l].node, s.granted[l].sid)
    decreases |acts|
  {
    if acts != [] {
      var s', rest := Apply(s, acts[0]), acts[1..];
      SettledStep(s, acts[0], l);
      UnstoredKept(s, acts[0]);
      if l !in s'.kept {
        NeverKeptAgain(s', rest, l);
      } else if Stores(s, acts[0], s.granted[l].node, s.granted[l].sid) {
        UncancellableForever(s', rest, l);
      } else {
        HandleUntilStored(s', rest, l);
      }
    }
  }

  /**
   * In every run: as long as a lease is kept alive, its node can still cancel it if and only
   * if no lookup of the same session on that node has stored another handle since; and once
   * that has happened, only its expiry ends the keep-alive, in every continuation.
   */
  lemma KeptLeaseHasHandleExactly(s0: State, acts: seq<Action>, later: seq<Action>, l: Lease)
    requires Init(s0) && Runs(s0, acts) && Runs(Exec(s0, acts), later)
    requires Handled(Exec(s0, acts), l) && l in Exec(Exec(s0, acts), later).kept
    ensures var s, s' := Exec(s0, acts), Exec(Exec(s0, acts), later);
            && (Handled(s', l) <==> !StoresIn(s, later, s.granted[l].node, s.granted[l].sid))
            && (!Handled(s', l) ==> forall more | Runs(s', more) ::
                  !Handled(Exec(s', more), l) && (l in Exec(s', more).kept <==> Expire(l) !in more))
  {
    var s := Exec(s0, acts);
    InitLeases(s0);
    UnstoredOfRun(s0, acts);
    HandledIsSettled(s, l);
    HandleUntilStored(s, later, l);
    UnstoredOfRun(s, later);
    SettledRun(s, later, l);
    var s' := Exec(s, later);
    if !Handled(s', l) {
      forall more | Runs(s', more)
        ensures !Handled(Exec(s', more), l) && (l in Exec(s', more).kept <==> Expire(l) !in more)
      {
        UncancellableForever(s', more, l);
      }
    }
  }

  lemma {:induction false} SettledRun(s: State, acts: seq<Action>, l: Lease)
    requires LeaseInv(s) && UnstoredInv(s) && Runs(s, acts) && Settled(s, l)
    ensures Settled(Exec(s, acts), l)
    decreases |acts|
  {
    if acts != [] {
      SettledStep(s, acts[0], l);
      UnstoredKept(s, acts[0]);
      SettledRun(Apply(s, acts[0]), acts[1..], l);
    }
  }

  // ---- how long a lease is kept alive ----

  /** A close of `sid` on node `n` gives up the lease it finds a handle of. */
  predicate GivesUpLease(s: State, a: Action, n: NodeId, sid: Sid) {
    a.Go? && a.tid < |s.threads|
    && var th := s.threads[a.tid]; th.node == n && th.pc.C? && th.pc.sid == sid && th.pc.c.CCancel?
  }

  /** Some close does so in the course of `acts` before any lookup stores another handle. */
  ghost predicate GivenUpIn(s: State, acts: seq<Action>, n: NodeId, sid: Sid)
    requires Typed(s) && Runs(s, acts)
    decreases |acts|
  {
    acts != []
    && (GivesUpLease(s, acts[0], n, sid)
        || (!Stores(s, acts[0], n, sid)
            && (ApplyTyped(s, acts[0]); GivenUpIn(Apply(s, acts[0]), acts[1..], n, sid))))
  }

  lemma GivenUpByThread(s: State, t: Tid, s': State, l: Lease)
    requires LeaseInv(s) && Settled(s, l) && Handled(s, l) && t < |s.threads| && StepOf(s, t, s')
    requires MuEffect(s, t, s') && LeaseEffect(s, t, s')
    ensures l in s'.kept <==>
            l in s.kept && !(Cancels(s.threads[t].pc) && s.threads[t].node == s.granted[l].node
                             && s.threads[t].pc.sid == s.granted[l].sid)
  {
    var pc, had := s.threads[t].pc, s.nodes[s.threads[t].node].leases;
    assert pc.C? && pc.sid in had ==> Grants(s, had[pc.sid], s.threads[t].node, pc.sid);
    assert AboutToStore(pc) ==> pc.g.lease != l;
  }

  lemma GivenUpStep(s: State, a: Action, l: Lease)
    requires LeaseInv(s) && Settled(s, l) && Handled(s, l) && Enabled(s, a)
    ensures l in Apply(s, a).kept <==>
            l in s.kept && a != Expire(l) && !GivesUpLease(s, a, s.granted[l].node, s.granted[l].sid)
  {
    if ByThread(a) {
      ApplyEffect(s, a);
      GivenUpByThread(s, a.tid, Apply(s, a), l);
    }
  }

  lemma {:induction false} KeptUntilGivenUp(s: State, acts: seq<Action>, l: Lease)
    requires LeaseInv(s) && UnstoredInv(s) && Runs(s, acts) && Settled(s, l) && Handled(s, l) && l in s.kept
    ensures l in Exec(s, acts).kept <==>
            Expire(l) !in acts && !GivenUpIn(s, acts, s.granted[l].node, s.granted[l].sid)
    decreases |acts|
  {
    if acts != [] {
      var s', rest := Apply(s, acts[0]), acts[1..];
      assert acts == [acts[0]] + rest;
      SettledStep(s, acts[0], l);
      UnstoredKept(s, acts[0]);
      GivenUpStep(s, acts[0], l);
      if l !in s'.kept {
        NeverKeptAgain(s', rest, l);
      } else if Stores(s, acts[0], s.granted[l].node, s.granted[l].sid) {
        UncancellableForever(s', rest, l);
      } else {
        KeptUntilGivenUp(s', rest, l);
      }
    }
  }

  /**
   * In every run: a lease kept alive, with its handle in the map of its node, stays kept alive
   * if and only if it does not expire and no close of its session on that node gives it up
   * before another lookup there overwrites the handle.
   */
  lemma KeptLeaseEndsExactly(s0: State, acts: seq<Action>, later: seq<Action>, l: Lease)
    requires Init(s0) && Runs(s0, acts) && Runs(Exec(s0, acts), later)
    requires Handled(Exec(s0, acts), l) && l in Exec(s0, acts).kept
    ensures var s := Exec(s0, acts);
            l in Exec(s, later).kept <==>
            Expire(l) !in later && !GivenUpIn(s, later, s.granted[l].node, s.granted[l].sid)
  {
    InitLeases(s0);
    UnstoredOfRun(s0, acts);
    HandledIsSettled(Exec(s0, acts), l);
    KeptUntilGivenUp(Exec(s0, acts), later, l);
  }

  // ---- lookups that nobody follows up ----

  /** Nobody on node `n` has an open session `sid`, is closing it, or is getting it. */
  ghost predicate Unjoined(s: State, n: NodeId, sid: Sid) {
    && NobodyCloses(s, n, sid) && NobodyCanClose(s, n, sid)
    && forall t: Tid | t < |s.threads| && s.threads[t].node == n && s.threads[t].pc.E? :: s.threads[t].pc.sid != sid
  }

  /** `GetSession` is not called for `sid` on node `n`. */
  ghost predicate NotAskedFor(s: State, acts: seq<Action>, n: NodeId, sid: Sid) {
    forall t: Tid | t < |s.threads| && s.threads[t].node == n :: GetSession(t, sid) !in acts
  }

  lemma UnjoinedByThread(s: State, t: Tid, s': State, n: NodeId, sid: Sid)
    requires Typed(s) && Unjoined(s, n, sid) && t < |s.threads| && StepOf(s, t, s')
    requires PcEffect(s.threads[t].pc, s'.threads[t].pc) && MuEffect(s, t, s') && ObjectEffect(s, t, s')
    requires s.threads[t].node == n && s'.threads[t].pc.E? && s'.threads[t].pc.sid == sid ==> s.threads[t].pc.E?
    ensures Unjoined(s', n, sid)
  {
    var pc, pc' := s.threads[t].pc, s'.threads[t].pc;
    assert InClose(pc') ==> InClose(pc) || pc.Idle?;
  }

  lemma UnjoinedStep(s: State, a: Action, n: NodeId, sid: Sid)
    requires Typed(s) && Unjoined(s, n, sid) && Enabled(s, a) && NotAskedFor(s, [a], n, sid)
    ensures Unjoined(Apply(s, a), n, sid) && !GivesUpLease(s, a, n, sid)
  {
    if ByThread(a) {
      ApplyEffect(s, a);
      assert a == [a][0] && a in [a];
      UnjoinedByThread(s, a.tid, Apply(s, a), n, sid);
    }
  }

  lemma {:induction false} NeverGivenUp(s: State, acts: seq<Action>, n: NodeId, sid: Sid)
    requires Typed(s) && Runs(s, acts) && Unjoined(s, n, sid) && NotAskedFor(s, acts, n, sid)
    ensures !GivenUpIn(s, acts, n, sid)
    decreases |acts|
  {
    if acts != [] {
      ApplyTyped(s, acts[0]);
      assert acts == [acts[0]] + acts[1..];
      UnjoinedStep(s, acts[0], n, sid);
      SameThreads(s, acts[0]);
      NeverGivenUp(Apply(s, acts[0]), acts[1..], n, sid);
    }
  }

  lemma SameThreads(s: State, a: Action)
    requires Typed(s) && Enabled(s, a)
    ensures |Apply(s, a).threads| == |s.threads|
    ensures forall t: Tid | t < |s.threads| :: Apply(s, a).threads[t].node == s.threads[t].node
  {
    if ByThread(a) {
      ApplyStepOf(s, a);
    }
  }

  /**
   * A lookup whose caller never joins: as long as nobody gets the session on the node that took
   * it, its lease is kept alive until it expires.
   */
  lemma UnjoinedLookupIsKept(s0: State, acts: seq<Action>, later: seq<Action>, l: Lease)
    requires Init(s0) && Runs(s0, acts) && Runs(Exec(s0, acts), later)
    requires Handled(Exec(s0, acts), l) && l in Exec(s0, acts).kept
    requires var s := Exec(s0, acts);
             Unjoined(s, s.granted[l].node, s.granted[l].sid)
             && NotAskedFor(s, later, s.granted[l].node, s.granted[l].sid)
    ensures l in Exec(Exec(s0, acts), later).kept <==> Expire(l) !in later
  {
    var s := Exec(s0, acts);
    KeptLeaseEndsExactly(s0, acts, later, l);
    NeverGivenUp(s, later, s.granted[l].node, s.granted[l].sid);
  }
}
