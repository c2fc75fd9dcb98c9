/** Leases, their cancel handles, and the registry entries attached to them. */
module EtcdLeases {
  import opened SessionMeta
  import opened EtcdProtocol
  import opened EtcdEffects
  import opened EtcdLocks

  /** The lookup has found the session absent and not yet stored it. */
  predicate Creating(pc: Pc) {
    pc.G? && (pc.g.GGrant? || pc.g.GKeep? || pc.g.GMu? || pc.g.GPut?)
  }

  predicate HasLease(pc: Pc) {
    pc.G? && (pc.g.GKeep? || pc.g.GMu? || pc.g.GPut?)
  }

  /** The close has given up the lease and still holds the mutex of the node. */
  predicate PastCancel(pc: Pc) {
    pc.C? && (pc.c.CDelete? || pc.c.CLocal? || pc.c.CGauge? || pc.c.CUnlock?)
  }

  predicate Grants(s: State, l: Lease, n: NodeId, sid: Sid) {
    l < |s.granted| && s.granted[l] == Owner(n, sid)
  }

  /** A stored meta names its key, a node of the cluster, and that node's endpoint. */
  ghost predicate EntryInv(s: State) {
    forall sid | sid in s.registry ::
      var e := s.registry[sid];
      e.meta.nodeId < |s.nodes|
      && e.meta == OwnMeta(sid, e.meta.nodeId, s.nodes[e.meta.nodeId].endpoint)
      && Grants(s, e.lease, e.meta.nodeId, sid)
  }

  /** Every lease a node or a thread knows was granted for that very node and session. */
  ghost predicate GrantInv(s: State)
    requires Typed(s)
  {
    && (forall n: NodeId, sid | n < |s.nodes| && sid in s.nodes[n].leases :: Grants(s, s.nodes[n].leases[sid], n, sid))
    && (forall t: Tid | t < |s.threads| && HasLease(s.threads[t].pc) ::
          Grants(s, s.threads[t].pc.g.lease, s.threads[t].node, s.threads[t].pc.sid))
    && (forall l: Lease | l in s.live || l in s.kept :: l < |s.granted|)
  }

  /** While one lookup is creating a session, its key stays absent. */
  ghost predicate AbsentInv(s: State) {
    forall t: Tid | t < |s.threads| && Creating(s.threads[t].pc) :: s.threads[t].pc.sid !in s.registry
  }

  /** At its Put a lookup's lease is the node's handle; past its cancel a close has left none. */
  ghost predicate SlotInv(s: State)
    requires Typed(s)
  {
    forall t: Tid | t < |s.threads| ::
      var pc, leases := s.threads[t].pc, s.nodes[s.threads[t].node].leases;
      && (pc.G? && pc.g.GPut? ==> pc.sid in leases && leases[pc.sid] == pc.g.lease)
      && (PastCancel(pc) ==> pc.sid !in leases)
  }

  /**
   * Lease handle invariant: an entry whose lease is being kept alive is under the cancel
   * handle its owner has stored for that session.
   */
  ghost predicate HandleInv(s: State)
    requires EntryInv(s)
  {
    forall sid | sid in s.registry && s.registry[sid].lease in s.kept ::
      var leases := s.nodes[s.registry[sid].meta.nodeId].leases;
      sid in leases && leases[sid] == s.registry[sid].lease
  }

  ghost predicate LeaseInv(s: State) {
    Typed(s) && LockInv(s) && MuInv(s)
    && EntryInv(s) && GrantInv(s) && AbsentInv(s) && SlotInv(s) && HandleInv(s)
  }

  lemma EntryInvStep(s: State, t: Tid, s': State)
    requires Typed(s) && t < |s.threads| && StepOf(s, t, s') && EntryInv(s) && GrantInv(s)
    requires PcEffect(s.threads[t].pc, s'.threads[t].pc)
    requires MuEffect(s, t, s') && RegistryEffect(s, t, s') && LeaseEffect(s, t, s')
    ensures EntryInv(s')
  {}

  lemma GrantInvStep(s: State, t: Tid, s': State)
    requires Typed(s) && Typed(s') && t < |s.threads| && StepOf(s, t, s') && GrantInv(s)
    requires PcEffect(s.threads[t].pc, s'.threads[t].pc)
    requires MuEffect(s, t, s') && LeaseEffect(s, t, s')
    ensures GrantInv(s')
  {}

  lemma AbsentInvStep(s: State, t: Tid, s': State)
    requires Typed(s) && t < |s.threads| && StepOf(s, t, s') && LockInv(s) && AbsentInv(s)
    requires PcEffect(s.threads[t].pc, s'.threads[t].pc) && RegistryEffect(s, t, s')
    ensures AbsentInv(s')
  {}

  lemma SlotInvStep(s: State, t: Tid, s': State)
    requires Typed(s) && Typed(s') && t < |s.threads| && StepOf(s, t, s') && MuInv(s) && SlotInv(s)
    requires PcEffect(s.threads[t].pc, s'.threads[t].pc) && MuEffect(s, t, s') && LeaseEffect(s, t, s')
    ensures SlotInv(s')
  {}

  /** An entry kept alive after a step was kept alive before it, unless the step stored it. */
  lemma KeptBefore(s: State, t: Tid, s': State, sid: Sid)
    requires Typed(s) && t < |s.threads| && StepOf(s, t, s') && EntryInv(s) && AbsentInv(s) && GrantInv(s)
    requires RegistryEffect(s, t, s') && LeaseEffect(s, t, s')
    requires sid in s'.registry && s'.registry[sid].lease in s'.kept
    requires !(Puts(s.threads[t].pc, s'.threads[t].pc) && s.threads[t].pc.sid == sid)
    ensures sid in s.registry && s'.registry[sid] == s.registry[sid] && s.registry[sid].lease in s.kept
  {
    var pc := s.threads[t].pc;
    assert pc.G? && pc.g.GKeep? ==> HasLease(pc) && Creating(pc);
  }

  lemma StoredHandle(s: State, t: Tid, s': State)
    requires Typed(s) && t < |s.threads| && StepOf(s, t, s') && SlotInv(s) && Puts(s.threads[t].pc, s'.threads[t].pc)
    requires MuEffect(s, t, s') && RegistryEffect(s, t, s') && LeaseEffect(s, t, s')
    ensures var n, sid := s.threads[t].node, s.threads[t].pc.sid;
            && sid in s'.registry && s'.registry[sid].meta.nodeId == n
            && sid in s'.nodes[n].leases && s'.nodes[n].leases[sid] == s'.registry[sid].lease
  {}

  /** The handle of an entry kept alive before and after a step is left alone by it. */
  lemma HandleStays(s: State, t: Tid, s': State, sid: Sid)
    requires Typed(s) && t < |s.threads| && StepOf(s, t, s') && EntryInv(s) && AbsentInv(s) && HandleInv(s)
    requires MuEffect(s, t, s') && LeaseEffect(s, t, s')
    requires sid in s.registry && s.registry[sid].lease in s.kept && s.registry[sid].lease in s'.kept
    ensures var leases := s'.nodes[s.registry[sid].meta.nodeId].leases;
            sid in leases && leases[sid] == s.registry[sid].lease
  {
    var pc := s.threads[t].pc;
    assert pc.G? && pc.g.GMu? ==> Creating(pc);
  }

  lemma HandleInvStep(s: State, t: Tid, s': State)
    requires Typed(s) && t < |s.threads| && StepOf(s, t, s')
    requires EntryInv(s) && GrantInv(s) && AbsentInv(s) && SlotInv(s) && HandleInv(s) && EntryInv(s')
    requires PcEffect(s.threads[t].pc, s'.threads[t].pc)
    requires MuEffect(s, t, s') && RegistryEffect(s, t, s') && LeaseEffect(s, t, s')
    ensures HandleInv(s')
  {
    forall sid | sid in s'.registry && s'.registry[sid].lease in s'.kept
      ensures var leases := s'.nodes[s'.registry[sid].meta.nodeId].leases;
              sid in leases && leases[sid] == s'.registry[sid].lease
    {
      if Puts(s.threads[t].pc, s'.threads[t].pc) && s.threads[t].pc.sid == sid {
        StoredHandle(s, t, s');
      } else {
        KeptBefore(s, t, s', sid);
        HandleStays(s, t, s', sid);
      }
    }
  }

  lemma LeaseInvStep(s: State, t: Tid, s': State)
    requires LeaseInv(s) && t < |s.threads| && Effect(s, t, s')
    requires Typed(s') && LockInv(s') && MuInv(s')
    ensures LeaseInv(s')
  {
    EntryInvStep(s, t, s');
    GrantInvStep(s, t, s');
    AbsentInvStep(s, t, s');
    SlotInvStep(s, t, s');
    HandleInvStep(s, t, s');
  }

  lemma LeasesKeptByEnvironment(s: State, a: Action)
    requires LeaseInv(s) && Enabled(s, a) && !ByThread(a)
    requires Typed(Apply(s, a)) && LockInv(Apply(s, a)) && MuInv(Apply(s, a))
    ensures LeaseInv(Apply(s, a))
  {}

  /** Every action keeps every one of these invariants, whatever fails or expires. */
  lemma LeasesKept(s: State, a: Action)
    requires LeaseInv(s) && Enabled(s, a)
    ensures LeaseInv(Apply(s, a))
  {
    LocksKept(s, a);
    if ByThread(a) {
      ApplyEffect(s, a);
      LeaseInvStep(s, a.tid, Apply(s, a));
    } else {
      LeasesKeptByEnvironment(s, a);
    }
  }

  lemma {:induction false} LeasesOfRun(s: State, acts: seq<Action>)
    requires LeaseInv(s) && Runs(s, acts)
    ensures LeaseInv(Exec(s, acts))
    decreases |acts|
  {
    if acts != [] {
      LeasesKept(s, acts[0]);
      LeasesOfRun(Apply(s, acts[0]), acts[1..]);
    }
  }

  lemma InitLeases(s: State)
    requires Init(s)
    ensures LeaseInv(s)
  {}

  /** Over every run: a kept-alive entry is under its owner's cancel handle, and a Put finds its key absent. */
  lemma KeptEntriesHaveHandles(s0: State, acts: seq<Action>)
    requires Init(s0) && Runs(s0, acts)
    ensures var s := Exec(s0, acts);
            && EntryInv(s) && HandleInv(s)
            && (forall t: Tid | t < |s.threads| && s.threads[t].pc.G? && s.threads[t].pc.g.GPut? ::
                  s.threads[t].pc.sid !in s.registry)
  {
    InitLeases(s0);
    LeasesOfRun(s0, acts);
  }

  /** Nobody keeps the lease alive and no lookup is about to. */
  ghost predicate Spent(s: State, l: Lease) {
    l < |s.granted| && l !in s.kept
    && forall t: Tid | t < |s.threads| && HasLease(s.threads[t].pc) :: s.threads[t].pc.g.lease != l
  }

  lemma SpentByThread(s: State, t: Tid, s': State, l: Lease)
    requires Typed(s) && t < |s.threads| && StepOf(s, t, s') && GrantInv(s) && Spent(s, l)
    requires PcEffect(s.threads[t].pc, s'.threads[t].pc) && MuEffect(s, t, s') && LeaseEffect(s, t, s')
    ensures Spent(s', l)
  {}

  lemma SpentStep(s: State, a: Action, l: Lease)
    requires LeaseInv(s) && Enabled(s, a) && Spent(s, l)
    ensures Spent(Apply(s, a), l)
  {
    if ByThread(a) {
      ApplyEffect(s, a);
      SpentByThread(s, a.tid, Apply(s, a), l);
    }
  }

  lemma {:induction false} SpentForever(s: State, acts: seq<Action>, l: Lease)
    requires LeaseInv(s) && Runs(s, acts) && Spent(s, l)
    ensures Spent(Exec(s, acts), l)
    decreases |acts|
  {
    if acts != [] {
      LeasesKept(s, acts[0]);
      SpentStep(s, acts[0], l);
      SpentForever(Apply(s, acts[0]), acts[1..], l);
    }
  }

  /**
   * Once a close on a node is past its cancel, the entry of that node is kept alive by nobody,
   * then or ever again, whether its Delete succeeds or not.
   */
  lemma CancelledNeverKept(s0: State, acts: seq<Action>, t: Tid, later: seq<Action>)
    requires Init(s0) && Runs(s0, acts) && Runs(Exec(s0, acts), later)
    requires var s := Exec(s0, acts);
             t < |s.threads| && PastCancel(s.threads[t].pc)
             && s.threads[t].pc.sid in s.registry
             && s.registry[s.threads[t].pc.sid].meta.nodeId == s.threads[t].node
    ensures var s := Exec(s0, acts);
            var l := s.registry[s.threads[t].pc.sid].lease;
            l !in s.kept && l !in Exec(s, later).kept
  {
    InitLeases(s0);
    LeasesOfRun(s0, acts);
    var s := Exec(s0, acts);
    var l := s.registry[s.threads[t].pc.sid].lease;
    assert Spent(s, l) by {
      forall u: Tid | u < |s.threads| && HasLease(s.threads[u].pc) ensures s.threads[u].pc.g.lease != l {
        assert Creating(s.threads[u].pc);
      }
    }
    SpentForever(s, later, l);
  }
}
