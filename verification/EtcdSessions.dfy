/** Session objects, the map of local sessions, and the session gauge. */
module EtcdSessions {
  import opened SessionMeta
  import opened EtcdProtocol
  import opened EtcdEffects
  import opened EtcdLocks

  /** The close has not yet been decided: the key still maps to the session that closed. */
  predicate InClose(pc: Pc) {
    pc.C? && (pc.c.CMu? || pc.c.CNew? || pc.c.CLock? || pc.c.CCancel? || pc.c.CDelete? || pc.c.CLocal?)
  }

  predicate Maps(s: State, n: NodeId, sid: Sid, o: ObjId) {
    n < |s.nodes| && sid in s.nodes[n].sessions && s.nodes[n].sessions[sid] == o
  }

  /** A key maps to an object made for it. */
  ghost predicate KeyInv(s: State) {
    forall n: NodeId, sid | n < |s.nodes| && sid in s.nodes[n].sessions ::
      s.nodes[n].sessions[sid] < |s.objects|
      && s.objects[s.nodes[n].sessions[sid]].node == n && s.objects[s.nodes[n].sessions[sid]].sid == sid
  }

  /** An object not yet closed is mapped from its key. */
  ghost predicate MapInv(s: State) {
    forall o: ObjId | o < |s.objects| && !s.objects[o].status.Closed? ::
      Maps(s, s.objects[o].node, s.objects[o].sid, o)
  }

  /** A close under way and the object it closes point at each other. */
  ghost predicate ClosingInv(s: State)
    requires Typed(s)
  {
    && (forall o: ObjId | o < |s.objects| && s.objects[o].status.Closing? ::
          var t := s.objects[o].status.tid;
          t < |s.threads| && InClose(s.threads[t].pc) && s.threads[t].pc.obj == o)
    && (forall t: Tid | t < |s.threads| && InClose(s.threads[t].pc) ::
          s.objects[s.threads[t].pc.obj] == Object(s.threads[t].node, s.threads[t].pc.sid, Closing(t)))
  }

  /** A session about to be inserted is not there yet. */
  ghost predicate InsertInv(s: State)
    requires Typed(s)
  {
    forall t: Tid | t < |s.threads| && s.threads[t].pc.E? && s.threads[t].pc.e.EInsert? ::
      s.threads[t].pc.sid !in s.nodes[s.threads[t].node].sessions
  }

  /** The gauge is one ahead of the map between its change and the change of the map. */
  predicate GaugeAhead(pc: Pc) {
    (pc.E? && pc.e.EInsert?) || (pc.C? && pc.c.CGauge?)
  }

  function Ahead(s: State, n: NodeId): int
    requires n < |s.nodes|
  {
    var mu := s.nodes[n].mu;
    if mu.TakenBy? && mu.tid < |s.threads| && GaugeAhead(s.threads[mu.tid].pc) then 1 else 0
  }

  ghost predicate GaugeInv(s: State) {
    forall n: NodeId | n < |s.nodes| :: s.nodes[n].gauge == |s.nodes[n].sessions| + Ahead(s, n)
  }

  ghost predicate SessionInv(s: State) {
    Typed(s) && MuInv(s) && KeyInv(s) && MapInv(s) && ClosingInv(s) && InsertInv(s) && GaugeInv(s)
  }

  lemma KeyInvStep(s: State, t: Tid, s': State)
    requires Typed(s) && t < |s.threads| && StepOf(s, t, s') && KeyInv(s)
    requires PcEffect(s.threads[t].pc, s'.threads[t].pc) && MuEffect(s, t, s') && ObjectEffect(s, t, s')
    ensures KeyInv(s')
  {}

  lemma MapInvStep(s: State, t: Tid, s': State)
    requires Typed(s) && t < |s.threads| && StepOf(s, t, s')
    requires MapInv(s) && ClosingInv(s) && InsertInv(s)
    requires PcEffect(s.threads[t].pc, s'.threads[t].pc) && MuEffect(s, t, s') && ObjectEffect(s, t, s')
    ensures MapInv(s')
  {}

  lemma ClosingInvStep(s: State, t: Tid, s': State)
    requires Typed(s) && Typed(s') && t < |s.threads| && StepOf(s, t, s') && ClosingInv(s)
    requires PcEffect(s.threads[t].pc, s'.threads[t].pc) && MuEffect(s, t, s') && ObjectEffect(s, t, s')
    ensures ClosingInv(s')
  {}

  lemma InsertInvStep(s: State, t: Tid, s': State)
    requires Typed(s) && Typed(s') && t < |s.threads| && StepOf(s, t, s') && MuInv(s) && InsertInv(s)
    requires PcEffect(s.threads[t].pc, s'.threads[t].pc) && MuEffect(s, t, s') && ObjectEffect(s, t, s')
    ensures InsertInv(s')
  {}

  lemma SizeWithout<K, V>(m: map<K, V>, k: K)
    requires k in m
    ensures |m - {k}| == |m| - 1
  {
    assert (m - {k}).Keys == m.Keys - {k};
  }

  lemma SizeWith<K, V>(m: map<K, V>, k: K, v: V)
    requires k !in m
    ensures |m[k := v]| == |m| + 1
  {
    assert m[k := v].Keys == m.Keys + {k};
  }

  lemma OwnGauge(s: State, t: Tid, s': State)
    requires Typed(s) && t < |s.threads| && StepOf(s, t, s') && MuInv(s)
    requires MapInv(s) && ClosingInv(s) && InsertInv(s) && GaugeInv(s)
    requires PcEffect(s.threads[t].pc, s'.threads[t].pc) && MuEffect(s, t, s') && ObjectEffect(s, t, s')
    ensures var n := s.threads[t].node; s'.nodes[n].gauge == |s'.nodes[n].sessions| + Ahead(s', n)
  {
    var n, pc := s.threads[t].node, s.threads[t].pc;
    if pc.E? && pc.e.EInsert? {
      SizeWith(s.nodes[n].sessions, pc.sid, |s.objects|);
    } else if pc.C? && pc.c.CLocal? {
      assert InClose(pc) && !s.objects[pc.obj].status.Closed?;
      SizeWithout(s.nodes[n].sessions, pc.sid);
    }
  }

  lemma GaugeInvStep(s: State, t: Tid, s': State)
    requires Typed(s) && t < |s.threads| && StepOf(s, t, s') && MuInv(s)
    requires MapInv(s) && ClosingInv(s) && InsertInv(s) && GaugeInv(s)
    requires PcEffect(s.threads[t].pc, s'.threads[t].pc) && MuEffect(s, t, s') && ObjectEffect(s, t, s')
    ensures GaugeInv(s')
  {
    OwnGauge(s, t, s');
    forall m: NodeId | m < |s'.nodes| && m != s.threads[t].node
      ensures s'.nodes[m].gauge == |s'.nodes[m].sessions| + Ahead(s', m)
    {
      assert s'.nodes[m] == s.nodes[m] && Ahead(s', m) == Ahead(s, m);
    }
  }

  lemma SessionInvStep(s: State, t: Tid, s': State)
    requires SessionInv(s) && t < |s.threads| && Effect(s, t, s') && Typed(s') && MuInv(s')
    ensures SessionInv(s')
  {
    KeyInvStep(s, t, s');
    MapInvStep(s, t, s');
    ClosingInvStep(s, t, s');
    InsertInvStep(s, t, s');
    GaugeInvStep(s, t, s');
  }

  lemma SessionsKeptByEnvironment(s: State, a: Action)
    requires SessionInv(s) && Enabled(s, a) && !ByThread(a) && Typed(Apply(s, a)) && MuInv(Apply(s, a))
    ensures SessionInv(Apply(s, a))
  {}

  lemma SessionsKept(s: State, a: Action)
    requires SessionInv(s) && LockInv(s) && Enabled(s, a)
    ensures SessionInv(Apply(s, a)) && LockInv(Apply(s, a))
  {
    LocksKept(s, a);
    if ByThread(a) {
      ApplyEffect(s, a);
      SessionInvStep(s, a.tid, Apply(s, a));
    } else {
      SessionsKeptByEnvironment(s, a);
    }
  }

  lemma {:induction false} SessionsOfRun(s: State, acts: seq<Action>)
    requires SessionInv(s) && LockInv(s) && Runs(s, acts)
    ensures SessionInv(Exec(s, acts)) && LockInv(Exec(s, acts))
    decreases |acts|
  {
    if acts != [] {
      SessionsKept(s, acts[0]);
      SessionsOfRun(Apply(s, acts[0]), acts[1..]);
    }
  }

  /**
   * Over every run, whatever fails: whenever the mutex of a node is free its gauge counts its
   * session map, and until a close is decided its key maps to the very session that closed.
   */
  lemma GaugeCountsSessions(s0: State, acts: seq<Action>)
    requires Init(s0) && Runs(s0, acts)
    ensures var s := Exec(s0, acts);
            && (forall n: NodeId | n < |s.nodes| && s.nodes[n].mu.Free? :: s.nodes[n].gauge == |s.nodes[n].sessions|)
            && (forall t: Tid | t < |s.threads| && InClose(s.threads[t].pc) ::
                  Maps(s, s.threads[t].node, s.threads[t].pc.sid, s.threads[t].pc.obj)
                  && s.objects[s.threads[t].pc.obj].status == Closing(t))
  {
    SessionsOfRun(s0, acts);
  }
}
