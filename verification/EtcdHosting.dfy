/**
 * Single hosting: no two nodes hold an open session for one id.
 *
 * It needs a discipline the coordinator alone does not enforce: leases kept alive do not
 * expire, keep-alives of live leases start, and a session is created only on the strength of
 * a lookup that no close on that node has overtaken.
 */
module EtcdHosting {
  import opened SessionMeta
  import opened EtcdProtocol
  import opened EtcdEffects
  import opened EtcdLocks
  import opened EtcdLeases
  import opened EtcdHistory
  import opened EtcdSessions

  /** Lookup `i` of the history told node `n` that it owns `sid`. */
  predicate ToldOwner(log: seq<Event>, i: nat, n: NodeId, sid: Sid) {
    i < |log| && log[i].Take? && log[i].call < |log| && log[log[i].call] == Invoke(n, sid)
    && !log[i].meta.redirect
  }

  /** Node `n` has been told so, and no close of `sid` on `n` has cancelled since. */
  ghost predicate Ticket(log: seq<Event>, n: NodeId, sid: Sid) {
    exists i: nat ::
      ToldOwner(log, i, n, sid) && forall k: nat | i < k < |log| :: log[k] != Cancelled(n, sid)
  }

  ghost predicate Disciplined(s: State, a: Action)
    requires Typed(s) && Enabled(s, a)
  {
    match a
    case Go(t) =>
      var pc := s.threads[t].pc;
      pc.E? && pc.e.EInsert? ==> Ticket(s.log, s.threads[t].node, pc.sid)
    case Fail(t) =>
      var pc := s.threads[t].pc;
      pc.G? && pc.g.GKeep? ==> pc.g.lease !in s.live
    case Expire(l) => l !in s.kept
    case _ => true
  }

  ghost predicate DisciplinedRun(s: State, acts: seq<Action>)
    requires Typed(s) && Runs(s, acts)
    decreases |acts|
  {
    acts != [] ==> Disciplined(s, acts[0]) && (ApplyTyped(s, acts[0]); DisciplinedRun(Apply(s, acts[0]), acts[1..]))
  }

  /** Node `n` has an open session for `sid`, or one whose close is not yet decided. */
  predicate Hosts(s: State, n: NodeId, sid: Sid) {
    n < |s.nodes| && sid in s.nodes[n].sessions && s.nodes[n].sessions[sid] < |s.objects|
    && !s.objects[s.nodes[n].sessions[sid]].status.Closed?
  }

  // ---- what holds in disciplined runs ----

  predicate OwnedKept(s: State, n: NodeId, sid: Sid) {
    sid in s.registry && s.registry[sid].meta.nodeId == n && s.registry[sid].lease in s.kept
  }

  /** A session whose close failed stays in the map for good. */
  predicate Abandoned(s: State, n: NodeId, sid: Sid) {
    n < |s.nodes| && sid in s.nodes[n].sessions && s.nodes[n].sessions[sid] < |s.objects|
    && s.objects[s.nodes[n].sessions[sid]].status.Closed?
  }

  predicate BeforeCancel(pc: Pc) {
    pc.C? && (pc.c.CMu? || pc.c.CNew? || pc.c.CLock? || pc.c.CCancel?)
  }

  ghost predicate KeepInv(s: State) {
    forall t: Tid | t < |s.threads| ::
      var pc := s.threads[t].pc;
      pc.G? && (pc.g.GMu? || pc.g.GPut?) && pc.g.lease in s.live ==> pc.g.lease in s.kept
  }

  ghost predicate OpenInv(s: State) {
    forall n: NodeId, sid | n < |s.nodes| && sid in s.nodes[n].sessions ::
      s.nodes[n].sessions[sid] < |s.objects| && s.objects[s.nodes[n].sessions[sid]].status.Open?
      ==> OwnedKept(s, n, sid)
  }

  ghost predicate CloserInv(s: State) {
    forall t: Tid | t < |s.threads| ::
      var n, pc := s.threads[t].node, s.threads[t].pc;
      && (BeforeCancel(pc) ==> OwnedKept(s, n, pc.sid))
      && (pc.C? && pc.c.CDelete? && pc.sid in s.registry ==> s.registry[pc.sid].meta.nodeId == n)
      && (pc.C? && pc.c.CLocal? ==> pc.sid !in s.registry)
  }

  /** The lock of `sid` is held by a close on `n` about to delete the key. */
  predicate BeingDeleted(s: State, n: NodeId, sid: Sid) {
    sid in s.locks && s.locks[sid].Held? && s.locks[sid].tid < |s.threads|
    && var u := s.threads[s.locks[sid].tid]; u.node == n && u.pc.C? && u.pc.c.CDelete? && u.pc.sid == sid
  }

  ghost predicate UnkeptInv(s: State) {
    forall sid | sid in s.registry && s.registry[sid].lease !in s.kept ::
      var n := s.registry[sid].meta.nodeId;
      Abandoned(s, n, sid) || BeingDeleted(s, n, sid)
  }

  ghost predicate TicketInv(s: State) {
    forall n: NodeId, sid: Sid | Ticket(s.log, n, sid) :: OwnedKept(s, n, sid) || Abandoned(s, n, sid)
  }

  ghost predicate HostInv(s: State) {
    HistoryInv(s) && SessionInv(s)
    && KeepInv(s) && OpenInv(s) && CloserInv(s) && UnkeptInv(s) && TicketInv(s)
  }

  // ---- two stability facts ----

  lemma OwnedKeptStep(s: State, t: Tid, s': State, n: NodeId, sid: Sid)
    requires LeaseInv(s) && CloserInv(s) && t < |s.threads| && StepOf(s, t, s') && MuEffect(s, t, s')
    requires RegistryEffect(s, t, s') && LeaseEffect(s, t, s')
    requires OwnedKept(s, n, sid)
    requires !(Cancels(s.threads[t].pc) && s.threads[t].node == n && s.threads[t].pc.sid == sid)
    ensures OwnedKept(s', n, sid)
  {
    assert Deletes(s.threads[t].pc, s'.threads[t].pc) ==> PastCancel(s.threads[t].pc);
  }

  lemma AbandonedStep(s: State, t: Tid, s': State, n: NodeId, sid: Sid)
    requires SessionInv(s) && t < |s.threads| && StepOf(s, t, s') && MuEffect(s, t, s') && ObjectEffect(s, t, s')
    requires Abandoned(s, n, sid)
    ensures Abandoned(s', n, sid)
  {
    var pc := s.threads[t].pc;
    assert pc.C? && pc.c.CLocal? ==> InClose(pc) && Maps(s, s.threads[t].node, pc.sid, pc.obj);
  }

  /** No two closes of one session are under way on one node. */
  lemma OneCloser(s: State, t: Tid, u: Tid)
    requires SessionInv(s) && t < |s.threads| && u < |s.threads|
    requires InClose(s.threads[t].pc) && InClose(s.threads[u].pc)
    requires s.threads[t].node == s.threads[u].node && s.threads[t].pc.sid == s.threads[u].pc.sid
    ensures t == u
  {
    var n, sid := s.threads[t].node, s.threads[t].pc.sid;
    assert Maps(s, n, sid, s.threads[t].pc.obj) && Maps(s, n, sid, s.threads[u].pc.obj);
  }

  // ---- each invariant, one step ----

  lemma KeepInvStep(s: State, t: Tid, s': State)
    requires LeaseInv(s) && KeepInv(s) && t < |s.threads| && StepOf(s, t, s')
    requires PcEffect(s.threads[t].pc, s'.threads[t].pc) && LeaseEffect(s, t, s')
    requires s.threads[t].pc.G? && s.threads[t].pc.g.GKeep? && s.threads[t].pc.g.lease in s.live ==>
               s.threads[t].pc.g.lease in s'.kept
    ensures KeepInv(s')
  {
    var pc := s.threads[t].pc;
    if Cancels(pc) {
      assert HoldsLock(pc);
    }
  }

  lemma OpenInvStep(s: State, t: Tid, s': State)
    requires HostInv(s) && t < |s.threads| && Effect(s, t, s')
    requires s.threads[t].pc.E? && s.threads[t].pc.e.EInsert? ==> Ticket(s.log, s.threads[t].node, s.threads[t].pc.sid)
    ensures OpenInv(s')
  {
    forall n: NodeId, sid | n < |s'.nodes| && sid in s'.nodes[n].sessions
                            && s'.nodes[n].sessions[sid] < |s'.objects|
                            && s'.objects[s'.nodes[n].sessions[sid]].status.Open?
      ensures OwnedKept(s', n, sid)
    {
      OpenStays(s, t, s', n, sid);
      OwnedKeptStep(s, t, s', n, sid);
    }
  }

  /** A session open after a step was owned before it, and the step does not cancel its lease. */
  lemma OpenStays(s: State, t: Tid, s': State, n: NodeId, sid: Sid)
    requires SessionInv(s) && OpenInv(s) && TicketInv(s) && t < |s.threads| && StepOf(s, t, s')
    requires PcEffect(s.threads[t].pc, s'.threads[t].pc) && MuEffect(s, t, s') && ObjectEffect(s, t, s')
    requires s.threads[t].pc.E? && s.threads[t].pc.e.EInsert? ==> Ticket(s.log, s.threads[t].node, s.threads[t].pc.sid)
    requires n < |s'.nodes| && sid in s'.nodes[n].sessions && s'.nodes[n].sessions[sid] < |s'.objects|
    requires s'.objects[s'.nodes[n].sessions[sid]].status.Open?
    ensures OwnedKept(s, n, sid)
    ensures !(Cancels(s.threads[t].pc) && s.threads[t].node == n && s.threads[t].pc.sid == sid)
  {
    var pc := s.threads[t].pc;
    assert Cancels(pc) ==> InClose(pc) && Maps(s, s.threads[t].node, pc.sid, pc.obj);
  }

  lemma CloserInvStep(s: State, t: Tid, s': State)
    requires HostInv(s) && t < |s.threads| && Effect(s, t, s')
    ensures CloserInv(s')
  {
    forall u: Tid | u < |s'.threads|
      ensures var n, pc := s'.threads[u].node, s'.threads[u].pc;
              && (BeforeCancel(pc) ==> OwnedKept(s', n, pc.sid))
              && (pc.C? && pc.c.CDelete? && pc.sid in s'.registry ==> s'.registry[pc.sid].meta.nodeId == n)
              && (pc.C? && pc.c.CLocal? ==> pc.sid !in s'.registry)
    {
      if u == t {
        OwnCloser(s, t, s');
      } else {
        OtherCloser(s, t, s', u);
      }
    }
  }

  lemma OwnCloser(s: State, t: Tid, s': State)
    requires LeaseInv(s) && SessionInv(s) && OpenInv(s) && CloserInv(s) && t < |s.threads| && Effect(s, t, s')
    ensures var n, pc := s'.threads[t].node, s'.threads[t].pc;
            && (BeforeCancel(pc) ==> OwnedKept(s', n, pc.sid))
            && (pc.C? && pc.c.CDelete? && pc.sid in s'.registry ==> s'.registry[pc.sid].meta.nodeId == n)
            && (pc.C? && pc.c.CLocal? ==> pc.sid !in s'.registry)
  {
    var n, pc' := s'.threads[t].node, s'.threads[t].pc;
    if BeforeCancel(pc') {
      OwnedKeptStep(s, t, s', n, pc'.sid);
    }
  }

  lemma OtherCloser(s: State, t: Tid, s': State, u: Tid)
    requires LeaseInv(s) && SessionInv(s) && CloserInv(s) && t < |s.threads| && Effect(s, t, s')
    requires u < |s.threads| && u != t
    ensures var n, pc := s'.threads[u].node, s'.threads[u].pc;
            && (BeforeCancel(pc) ==> OwnedKept(s', n, pc.sid))
            && (pc.C? && pc.c.CDelete? && pc.sid in s'.registry ==> s'.registry[pc.sid].meta.nodeId == n)
            && (pc.C? && pc.c.CLocal? ==> pc.sid !in s'.registry)
  {
    var n, pc := s.threads[u].node, s.threads[u].pc;
    assert Puts(s.threads[t].pc, s'.threads[t].pc) ==> HoldsLock(s.threads[t].pc);
    assert pc.C? && (pc.c.CDelete? || pc.c.CLocal?) ==> HoldsLock(pc);
    if BeforeCancel(pc) {
      if Cancels(s.threads[t].pc) && s.threads[t].node == n && s.threads[t].pc.sid == pc.sid {
        OneCloser(s, t, u);
      }
      OwnedKeptStep(s, t, s', n, pc.sid);
    }
  }

  lemma UnkeptStays(s: State, t: Tid, s': State, sid: Sid)
    requires LeaseInv(s) && LockInv(s') && SessionInv(s) && UnkeptInv(s) && KeepInv(s)
    requires t < |s.threads| && Effect(s, t, s')
    requires sid in s'.registry && s'.registry[sid].lease !in s'.kept
    ensures var n := s'.registry[sid].meta.nodeId; Abandoned(s', n, sid) || BeingDeleted(s', n, sid)
  {
    var n := s'.registry[sid].meta.nodeId;
    if Puts(s.threads[t].pc, s'.threads[t].pc) && s.threads[t].pc.sid == sid {
      assert false;
    } else if Abandoned(s, n, sid) {
      AbandonedStep(s, t, s', n, sid);
    } else if BeingDeleted(s, n, sid) {
      StillDeleted(s, t, s', n, sid);
    } else {
      JustCancelled(s, t, s', sid);
    }
  }

  lemma StillDeleted(s: State, t: Tid, s': State, n: NodeId, sid: Sid)
    requires LockInv(s) && LockInv(s') && SessionInv(s) && t < |s.threads| && Effect(s, t, s')
    requires BeingDeleted(s, n, sid) && sid in s'.registry
    ensures Abandoned(s', n, sid) || BeingDeleted(s', n, sid)
  {
    var u := s.locks[sid].tid;
    assert InClose(s.threads[u].pc) && Maps(s, n, sid, s.threads[u].pc.obj);
  }

  lemma JustCancelled(s: State, t: Tid, s': State, sid: Sid)
    requires LeaseInv(s) && LockInv(s') && t < |s.threads| && Effect(s, t, s')
    requires sid in s.registry && sid in s'.registry && s.registry[sid] == s'.registry[sid]
    requires s.registry[sid].lease in s.kept && s.registry[sid].lease !in s'.kept
    ensures BeingDeleted(s', s.registry[sid].meta.nodeId, sid)
  {
    var pc' := s'.threads[t].pc;
    assert Cancels(s.threads[t].pc) && HoldsLock(pc');
  }

  lemma UnkeptInvStep(s: State, t: Tid, s': State)
    requires HostInv(s) && LockInv(s') && t < |s.threads| && Effect(s, t, s')
    ensures UnkeptInv(s')
  {
    forall sid | sid in s'.registry && s'.registry[sid].lease !in s'.kept
      ensures var n := s'.registry[sid].meta.nodeId; Abandoned(s', n, sid) || BeingDeleted(s', n, sid)
    {
      UnkeptStays(s, t, s', sid);
    }
  }

  /** A ticket a step leaves valid was valid before, or is the lookup this step completes. */
  lemma TicketBefore(s: State, t: Tid, s': State, n: NodeId, sid: Sid)
    requires CallInv(s) && CallsPast(s.log) && t < |s.threads| && Typed(s) && Effect(s, t, s')
    requires Ticket(s'.log, n, sid)
    ensures !(Cancels(s.threads[t].pc) && s.threads[t].node == n && s.threads[t].pc.sid == sid)
    ensures Ticket(s.log, n, sid)
            || ((Finds(s.threads[t].pc, s'.threads[t].pc) || Puts(s.threads[t].pc, s'.threads[t].pc))
                && s.threads[t].node == n && s.threads[t].pc.sid == sid && !s'.threads[t].pc.g.out.meta.redirect)
  {
    var i: nat :| ToldOwner(s'.log, i, n, sid) && forall k: nat | i < k < |s'.log| :: s'.log[k] != Cancelled(n, sid);
    if Cancels(s.threads[t].pc) {
      assert s'.log[|s.log|] == Cancelled(s.threads[t].node, s.threads[t].pc.sid);
    }
    if i < |s.log| {
      assert ToldOwner(s.log, i, n, sid) && forall k: nat | i < k < |s.log| :: s.log[k] == s'.log[k];
    }
  }

  lemma FoundOwned(s: State, t: Tid, s': State)
    requires LeaseInv(s) && UnkeptInv(s) && KeepInv(s) && t < |s.threads| && Effect(s, t, s')
    requires Finds(s.threads[t].pc, s'.threads[t].pc) || Puts(s.threads[t].pc, s'.threads[t].pc)
    requires !s'.threads[t].pc.g.out.meta.redirect
    ensures OwnedKept(s', s.threads[t].node, s.threads[t].pc.sid)
            || Abandoned(s, s.threads[t].node, s.threads[t].pc.sid)
  {
    assert HoldsLock(s.threads[t].pc);
  }

  lemma TicketInvStep(s: State, t: Tid, s': State)
    requires HostInv(s) && t < |s.threads| && Effect(s, t, s')
    ensures TicketInv(s')
  {
    forall n: NodeId, sid: Sid | Ticket(s'.log, n, sid)
      ensures OwnedKept(s', n, sid) || Abandoned(s', n, sid)
    {
      TicketBefore(s, t, s', n, sid);
      if Ticket(s.log, n, sid) {
        if OwnedKept(s, n, sid) {
          OwnedKeptStep(s, t, s', n, sid);
        }
      } else {
        FoundOwned(s, t, s');
      }
      if Abandoned(s, n, sid) {
        AbandonedStep(s, t, s', n, sid);
      }
    }
  }

  // ---- every disciplined action ----

  /** What etcd may do by itself: drop keys nobody keeps alive and locks nobody holds. */
  ghost predicate Quiet(s: State, s': State) {
    && s'.threads == s.threads && s'.nodes == s.nodes && s'.objects == s.objects
    && s'.kept == s.kept && s'.live <= s.live
    && (forall sid | sid in s'.registry :: sid in s.registry && s'.registry[sid] == s.registry[sid])
    && (forall sid | sid in s.registry && s.registry[sid].lease in s.kept :: sid in s'.registry)
    && (forall sid | sid in s.locks && s.locks[sid].Held? :: sid in s'.locks && s'.locks[sid] == s.locks[sid])
    && (s'.log == s.log || exists sid :: s'.log == s.log + [Removed(sid)])
  }

  lemma QuietTickets(s: State, s': State, n: NodeId, sid: Sid)
    requires CallsPast(s.log) && Quiet(s, s') && Ticket(s'.log, n, sid)
    ensures Ticket(s.log, n, sid)
  {
    var i: nat :| ToldOwner(s'.log, i, n, sid) && forall k: nat | i < k < |s'.log| :: s'.log[k] != Cancelled(n, sid);
    assert ToldOwner(s.log, i, n, sid) && forall k: nat | i < k < |s.log| :: s.log[k] == s'.log[k];
  }

  lemma QuietHosts(s: State, s': State)
    requires CallsPast(s.log) && Quiet(s, s')
    requires KeepInv(s) && OpenInv(s) && CloserInv(s) && UnkeptInv(s) && TicketInv(s)
    ensures KeepInv(s') && OpenInv(s') && CloserInv(s') && UnkeptInv(s') && TicketInv(s')
  {
    forall n: NodeId, sid: Sid | Ticket(s'.log, n, sid) ensures OwnedKept(s', n, sid) || Abandoned(s', n, sid) {
      QuietTickets(s, s', n, sid);
    }
  }

  lemma EtcdIsQuiet(s: State, a: Action)
    requires Typed(s) && EntryInv(s) && Enabled(s, a) && Disciplined(s, a) && !ByThread(a)
    ensures Quiet(s, Apply(s, a))
  {
    if a.Expire? {
      ExpireRemoves(s, a.lease);
    }
  }

  lemma HostInvStep(s: State, t: Tid, s': State)
    requires HostInv(s) && HistoryInv(s') && SessionInv(s') && t < |s.threads| && Effect(s, t, s')
    requires s.threads[t].pc.E? && s.threads[t].pc.e.EInsert? ==> Ticket(s.log, s.threads[t].node, s.threads[t].pc.sid)
    requires s.threads[t].pc.G? && s.threads[t].pc.g.GKeep? && s.threads[t].pc.g.lease in s.live ==>
               s.threads[t].pc.g.lease in s'.kept
    ensures HostInv(s')
  {
    KeepInvStep(s, t, s');
    OpenInvStep(s, t, s');
    CloserInvStep(s, t, s');
    UnkeptInvStep(s, t, s');
    TicketInvStep(s, t, s');
  }

  lemma HostsKept(s: State, a: Action)
    requires HostInv(s) && Enabled(s, a) && Disciplined(s, a)
    ensures HostInv(Apply(s, a))
  {
    HistoryKept(s, a);
    SessionsKept(s, a);
    if ByThread(a) {
      ApplyEffect(s, a);
      HostInvStep(s, a.tid, Apply(s, a));
    } else {
      EtcdIsQuiet(s, a);
      QuietHosts(s, Apply(s, a));
    }
  }

  lemma {:induction false} HostsOfRun(s: State, acts: seq<Action>)
    requires HostInv(s) && Runs(s, acts) && DisciplinedRun(s, acts)
    ensures HostInv(Exec(s, acts))
    decreases |acts|
  {
    if acts != [] {
      HostsKept(s, acts[0]);
      HostsOfRun(Apply(s, acts[0]), acts[1..]);
    }
  }

  lemma InitHosts(s: State)
    requires Init(s)
    ensures HostInv(s)
  {
    InitLeases(s);
  }

  /** A host either owns the kept-alive entry or is inside its close, holding the etcd lock. */
  lemma HostOwnsOrLocks(s: State, n: NodeId, sid: Sid)
    requires HostInv(s) && Hosts(s, n, sid)
    ensures OwnedKept(s, n, sid)
            || (&& sid in s.locks && s.locks[sid].Held? && s.threads[s.locks[sid].tid].node == n
                && InClose(s.threads[s.locks[sid].tid].pc)
                && (sid in s.registry ==> s.registry[sid].meta.nodeId == n))
  {
    var o := s.nodes[n].sessions[sid];
    if s.objects[o].status.Closing? {
      var pc := s.threads[s.objects[o].status.tid].pc;
      assert InClose(pc) && (BeforeCancel(pc) || HoldsLock(pc));
    }
  }

  /**
   * Over every disciplined run no two nodes host one session, not even while one of them is
   * closing it, and a Delete only ever removes the deleting node's own entry.
   */
  lemma SingleHost(s0: State, acts: seq<Action>, n: NodeId, m: NodeId, sid: Sid)
    requires Init(s0) && Runs(s0, acts) && DisciplinedRun(s0, acts)
    ensures var s := Exec(s0, acts);
            && (Hosts(s, n, sid) && Hosts(s, m, sid) ==> n == m)
            && (forall t: Tid | t < |s.threads| && s.threads[t].pc.C? && s.threads[t].pc.c.CDelete?
                                && s.threads[t].pc.sid in s.registry ::
                  s.registry[s.threads[t].pc.sid].meta.nodeId == s.threads[t].node)
  {
    InitHosts(s0);
    HostsOfRun(s0, acts);
    var s := Exec(s0, acts);
    if Hosts(s, n, sid) && Hosts(s, m, sid) {
      HostOwnsOrLocks(s, n, sid);
      HostOwnsOrLocks(s, m, sid);
    }
  }
}
