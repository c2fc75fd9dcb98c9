/** Whose entry the Delete of a close removes, in every run and without any discipline. */
module EtcdDeletes {
  import opened SessionMeta
  import opened EtcdProtocol
  import opened EtcdEffects
  import opened EtcdLeases
  import opened EtcdLocks
  import opened EtcdSessions
  import opened EtcdHosting

  /** Thread `t` is a close that holds its etcd lock and has yet to delete its key. */
  predicate BeforeDelete(s: State, t: Tid) {
    t < |s.threads| && s.threads[t].pc.C? && (s.threads[t].pc.c.CCancel? || s.threads[t].pc.c.CDelete?)
  }

  /** It stays there all through `acts`. */
  ghost predicate Remains(s: State, acts: seq<Action>, t: Tid)
    requires Typed(s) && Runs(s, acts)
    decreases |acts|
  {
    BeforeDelete(s, t)
    && (acts != [] ==> (ApplyTyped(s, acts[0]); Remains(Apply(s, acts[0]), acts[1..], t)))
  }

  /** An entry is there that belongs to another node than the one of `t`. */
  predicate Foreign(s: State, t: Tid)
    requires BeforeDelete(s, t)
  {
    var sid := s.threads[t].pc.sid;
    sid in s.registry && s.registry[sid].meta.nodeId != s.threads[t].node
  }

  /** The handle the close finds in its node's map is that of the entry. */
  predicate HandleMatches(s: State, t: Tid)
    requires Typed(s) && BeforeDelete(s, t)
  {
    var sid, leases := s.threads[t].pc.sid, s.nodes[s.threads[t].node].leases;
    sid in leases && sid in s.registry && leases[sid] == s.registry[sid].lease
  }

  // ---- whose entry it is, told by the handle ----

  /** The node that registered `sid` holds the handle of the entry. */
  predicate OwnerHolds(s: State, sid: Sid)
    requires sid in s.registry
  {
    var e := s.registry[sid];
    e.meta.nodeId < |s.nodes|
    && sid in s.nodes[e.meta.nodeId].leases && s.nodes[e.meta.nodeId].leases[sid] == e.lease
  }

  /**
   * Kept alive or not, an entry is under its owner's handle, or left behind by a close of the
   * owner that failed, or about to be deleted by one.
   */
  ghost predicate OwnerInv(s: State) {
    forall sid | sid in s.registry ::
      var n := s.registry[sid].meta.nodeId; OwnerHolds(s, sid) || Abandoned(s, n, sid) || BeingDeleted(s, n, sid)
  }

  /** What the step of a thread does to the handle of an entry it leaves alone. */
  lemma HandleOrCancel(s: State, t: Tid, s': State, sid: Sid)
    requires Typed(s) && AbsentInv(s) && LockInv(s') && t < |s.threads| && StepOf(s, t, s')
    requires PcEffect(s.threads[t].pc, s'.threads[t].pc) && MuEffect(s, t, s') && LeaseEffect(s, t, s')
    requires sid in s.registry && sid in s'.registry && s.registry[sid] == s'.registry[sid] && OwnerHolds(s, sid)
    ensures OwnerHolds(s', sid) || BeingDeleted(s', s.registry[sid].meta.nodeId, sid)
  {
    var pc, pc' := s.threads[t].pc, s'.threads[t].pc;
    assert pc.G? && pc.g.GMu? ==> Creating(pc);
    assert Cancels(pc) ==> HoldsLock(pc') && pc'.C? && pc'.c.CDelete?;
  }

  lemma EntryFromBefore(s: State, t: Tid, s': State, sid: Sid)
    requires t < |s.threads| && Typed(s) && Effect(s, t, s') && sid in s'.registry
    requires !(Puts(s.threads[t].pc, s'.threads[t].pc) && s.threads[t].pc.sid == sid)
    ensures sid in s.registry && s'.registry[sid] == s.registry[sid]
  {}

  lemma OwnerStays(s: State, t: Tid, s': State, sid: Sid)
    requires LeaseInv(s) && SessionInv(s) && LockInv(s') && OwnerInv(s) && t < |s.threads| && Effect(s, t, s')
    requires sid in s'.registry
    ensures var n := s'.registry[sid].meta.nodeId;
            OwnerHolds(s', sid) || Abandoned(s', n, sid) || BeingDeleted(s', n, sid)
  {
    if Puts(s.threads[t].pc, s'.threads[t].pc) && s.threads[t].pc.sid == sid {
      StoredHandle(s, t, s');
    } else {
      EntryFromBefore(s, t, s', sid);
      var n := s.registry[sid].meta.nodeId;
      if OwnerHolds(s, sid) {
        HandleOrCancel(s, t, s', sid);
      } else if Abandoned(s, n, sid) {
        AbandonedStep(s, t, s', n, sid);
      } else {
        StillDeleted(s, t, s', n, sid);
      }
    }
  }

  lemma OwnerByThread(s: State, t: Tid, s': State)
    requires LeaseInv(s) && SessionInv(s) && LockInv(s') && OwnerInv(s) && t < |s.threads| && Effect(s, t, s')
    ensures OwnerInv(s')
  {
    forall sid | sid in s'.registry
      ensures var n := s'.registry[sid].meta.nodeId;
              OwnerHolds(s', sid) || Abandoned(s', n, sid) || BeingDeleted(s', n, sid)
    {
      OwnerStays(s, t, s', sid);
    }
  }

  lemma OwnerByEnvironment(s: State, a: Action)
    requires Typed(s) && OwnerInv(s) && Enabled(s, a) && !ByThread(a)
    ensures OwnerInv(Apply(s, a))
  {
    var s' := Apply(s, a);
    forall sid | sid in s'.registry
      ensures var n := s'.registry[sid].meta.nodeId;
              OwnerHolds(s', sid) || Abandoned(s', n, sid) || BeingDeleted(s', n, sid)
    {
      assert sid in s.registry && s'.registry[sid] == s.registry[sid];
    }
  }

  ghost predicate DeleteInv(s: State) {
    LeaseInv(s) && SessionInv(s) && OwnerInv(s)
  }

  lemma DeleteInvKept(s: State, a: Action)
    requires DeleteInv(s) && Enabled(s, a)
    ensures DeleteInv(Apply(s, a))
  {
    LeasesKept(s, a);
    SessionsKept(s, a);
    if ByThread(a) {
      ApplyEffect(s, a);
      OwnerByThread(s, a.tid, Apply(s, a));
    } else {
      OwnerByEnvironment(s, a);
    }
  }

  lemma {:induction false} DeleteInvOfRun(s: State, acts: seq<Action>)
    requires DeleteInv(s) && Runs(s, acts)
    ensures DeleteInv(Exec(s, acts))
    decreases |acts|
  {
    if acts != [] {
      DeleteInvKept(s, acts[0]);
      DeleteInvOfRun(Apply(s, acts[0]), acts[1..]);
    }
  }

  /** A close about to cancel finds the handle of its own entry. */
  lemma OwnHandleThere(s: State, t: Tid)
    requires DeleteInv(s) && BeforeDelete(s, t) && s.threads[t].pc.c.CCancel? && s.threads[t].pc.sid in s.registry
    ensures HandleMatches(s, t) <==> !Foreign(s, t)
  {
    var n, pc := s.threads[t].node, s.threads[t].pc;
    assert InClose(pc) && Maps(s, n, pc.sid, pc.obj);
    assert HoldsLock(pc);
  }

  /**
   * What a close can tell before it cancels, in every run: the entry is its own if and only if
   * the handle it finds in its node's map is that of the entry, kept alive or not.
   */
  lemma HandleTellsOwner(s0: State, acts: seq<Action>, t: Tid)
    requires Init(s0) && Runs(s0, acts)
    requires var s := Exec(s0, acts);
             BeforeDelete(s, t) && s.threads[t].pc.c.CCancel? && s.threads[t].pc.sid in s.registry
    ensures HandleMatches(Exec(s0, acts), t) <==> !Foreign(Exec(s0, acts), t)
  {
    InitLeases(s0);
    DeleteInvOfRun(s0, acts);
    OwnHandleThere(Exec(s0, acts), t);
  }

  // ---- and until the Delete ----

  /** While a close holds the lock of its key, only the expiry of its lease touches the entry. */
  lemma EntryByThread(s: State, u: Tid, s': State, t: Tid)
    requires LeaseInv(s) && u < |s.threads| && Effect(s, u, s') && BeforeDelete(s, t) && BeforeDelete(s', t)
    ensures var sid := s.threads[t].pc.sid;
            && s'.threads[t].pc.sid == sid && s'.threads[t].node == s.threads[t].node
            && (sid in s'.registry <==> sid in s.registry)
            && (sid in s.registry ==> s'.registry[sid] == s.registry[sid])
  {
    var pc, pc' := s.threads[u].pc, s'.threads[u].pc;
    assert HoldsLock(s.threads[t].pc);
    assert Puts(pc, pc') || Deletes(pc, pc') ==> HoldsLock(pc);
  }

  lemma EntryStep(s: State, a: Action, t: Tid)
    requires LeaseInv(s) && Enabled(s, a) && BeforeDelete(s, t) && BeforeDelete(Apply(s, a), t)
    ensures var s', sid := Apply(s, a), s.threads[t].pc.sid;
            && s'.threads[t].pc.sid == sid && s'.threads[t].node == s.threads[t].node
            && (sid in s'.registry <==> sid in s.registry && a != Expire(s.registry[sid].lease))
            && (sid in s'.registry ==> s'.registry[sid] == s.registry[sid])
  {
    if ByThread(a) {
      ApplyEffect(s, a);
      EntryByThread(s, a.tid, Apply(s, a), t);
    }
  }

  /** Between its lock and its Delete a close sees one entry: the one found at the lock, until its lease expires. */
  lemma {:induction false} EntryUntilDelete(s: State, acts: seq<Action>, t: Tid)
    requires LeaseInv(s) && Runs(s, acts) && Remains(s, acts, t)
    ensures var s', sid := Exec(s, acts), s.threads[t].pc.sid;
            && BeforeDelete(s', t) && s'.threads[t].pc.sid == sid && s'.threads[t].node == s.threads[t].node
            && (sid in s'.registry <==> sid in s.registry && Expire(s.registry[sid].lease) !in acts)
            && (sid in s'.registry ==> s'.registry[sid] == s.registry[sid])
    decreases |acts|
  {
    if acts != [] {
      LeasesKept(s, acts[0]);
      EntryStep(s, acts[0], t);
      EntryUntilDelete(Apply(s, acts[0]), acts[1..], t);
      assert acts == [acts[0]] + acts[1..];
    }
  }

  /**
   * In every run, whatever fails or expires: a Delete removes the entry of another node if and
   * only if the key was another node's when the close held the etcd lock before its cancel,
   * and the lease of that entry has not expired since. It removes nothing but that key.
   */
  lemma DeletesForeignEntryExactly(s0: State, acts: seq<Action>, held: seq<Action>, t: Tid)
    requires Init(s0) && Runs(s0, acts) && Runs(Exec(s0, acts), held) && Remains(Exec(s0, acts), held, t)
    requires Exec(s0, acts).threads[t].pc.c.CCancel?
    requires var s' := Exec(Exec(s0, acts), held); BeforeDelete(s', t) && s'.threads[t].pc.c.CDelete?
    ensures var s, s' := Exec(s0, acts), Exec(Exec(s0, acts), held);
            var sid := s.threads[t].pc.sid;
            && Enabled(s', Go(t)) && Apply(s', Go(t)).registry == s'.registry - {sid}
            && (Foreign(s', t) <==> Foreign(s, t) && Expire(s.registry[sid].lease) !in held)
  {
    InitLeases(s0);
    LeasesOfRun(s0, acts);
    EntryUntilDelete(Exec(s0, acts), held, t);
  }

  /** The same told by what the close finds: an entry that is not that of its handle. */
  lemma DeletesForeignEntryByHandle(s0: State, acts: seq<Action>, held: seq<Action>, t: Tid)
    requires Init(s0) && Runs(s0, acts) && Runs(Exec(s0, acts), held) && Remains(Exec(s0, acts), held, t)
    requires Exec(s0, acts).threads[t].pc.c.CCancel?
    requires var s' := Exec(Exec(s0, acts), held); BeforeDelete(s', t) && s'.threads[t].pc.c.CDelete?
    ensures var s, s' := Exec(s0, acts), Exec(Exec(s0, acts), held);
            var sid := s.threads[t].pc.sid;
            Foreign(s', t) <==>
            sid in s.registry && !HandleMatches(s, t) && Expire(s.registry[sid].lease) !in held
  {
    if Exec(s0, acts).threads[t].pc.sid in Exec(s0, acts).registry {
      HandleTellsOwner(s0, acts, t);
    }
    DeletesForeignEntryExactly(s0, acts, held, t);
  }
}
