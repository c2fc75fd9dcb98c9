/** Mutual exclusion: who holds the etcd lock of a session and the mutex of a node. */
module EtcdLocks {
  import opened SessionMeta
  import opened EtcdProtocol
  import opened EtcdEffects

  /** An etcd lock is held by exactly the thread whose program counter says so. */
  ghost predicate LockInv(s: State) {
    && (forall t: Tid | t < |s.threads| && HoldsLock(s.threads[t].pc) ::
          s.threads[t].pc.sid in s.locks && s.locks[s.threads[t].pc.sid] == Held(t))
    && (forall sid | sid in s.locks && s.locks[sid].Held? ::
          s.locks[sid].tid < |s.threads|
          && HoldsLock(s.threads[s.locks[sid].tid].pc) && s.threads[s.locks[sid].tid].pc.sid == sid)
  }

  /** So is the mutex of a node. */
  ghost predicate MuInv(s: State)
    requires Typed(s)
  {
    && (forall t: Tid | t < |s.threads| && HoldsMu(s.threads[t].pc) ::
          s.nodes[s.threads[t].node].mu == TakenBy(t))
    && (forall n: NodeId | n < |s.nodes| && s.nodes[n].mu.TakenBy? ::
          s.nodes[n].mu.tid < |s.threads|
          && HoldsMu(s.threads[s.nodes[n].mu.tid].pc) && s.threads[s.nodes[n].mu.tid].node == n)
  }

  lemma LockInvStep(s: State, t: Tid, s': State)
    requires Typed(s) && t < |s.threads| && StepOf(s, t, s') && LockInv(s)
    requires PcEffect(s.threads[t].pc, s'.threads[t].pc) && LockEffect(s, t, s')
    ensures LockInv(s')
  {}

  lemma MuInvStep(s: State, t: Tid, s': State)
    requires Typed(s) && Typed(s') && t < |s.threads| && StepOf(s, t, s') && MuInv(s)
    requires PcEffect(s.threads[t].pc, s'.threads[t].pc) && MuEffect(s, t, s')
    ensures MuInv(s')
  {}

  lemma LocksKept(s: State, a: Action)
    requires Typed(s) && LockInv(s) && MuInv(s) && Enabled(s, a)
    ensures Typed(Apply(s, a)) && LockInv(Apply(s, a)) && MuInv(Apply(s, a))
  {
    ApplyTyped(s, a);
    if ByThread(a) {
      ApplyEffect(s, a);
      LockInvStep(s, a.tid, Apply(s, a));
      MuInvStep(s, a.tid, Apply(s, a));
    }
  }
}
