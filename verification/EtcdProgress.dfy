/**
 * Progress, although the two operations take their two locks in opposite orders: a lookup
 * takes the etcd lock and then the node mutex, a close the mutex and then the etcd lock.
 */
module EtcdProgress {
  import opened EtcdProtocol
  import opened EtcdEffects
  import opened EtcdLocks

  predicate WantsMu(pc: Pc) {
    (pc.G? && pc.g.GMu?) || (pc.E? && pc.e.EMu?) || (pc.C? && pc.c.CMu?)
  }

  predicate WantsLock(pc: Pc) {
    (pc.G? && pc.g.GLock?) || (pc.C? && pc.c.CLock?)
  }

  /** Thread `t` cannot go on until `u` lets go of something. */
  predicate Waits(s: State, t: Tid, u: Tid) {
    Active(s, t) &&
    ((WantsMu(s.threads[t].pc) && s.nodes[s.threads[t].node].mu == TakenBy(u))
     || (WantsLock(s.threads[t].pc) && s.threads[t].pc.sid in s.locks && s.locks[s.threads[t].pc.sid] == Held(u)))
  }

  predicate CanStep(s: State, t: Tid)
    requires Typed(s)
  {
    Enabled(s, Go(t)) || Enabled(s, Fail(t))
  }

  /** An operation under way can take a step, or the holder of the mutex it wants can. */
  lemma SomeoneSteps(s: State, t: Tid)
    requires Typed(s) && LockInv(s) && MuInv(s) && Active(s, t)
    ensures CanStep(s, t)
            || (WantsMu(s.threads[t].pc) && exists u: Tid :: Waits(s, t, u) && CanStep(s, u))
  {
    var pc, mu := s.threads[t].pc, s.nodes[s.threads[t].node].mu;
    if WantsMu(pc) && mu.TakenBy? {
      HolderSteps(s, mu.tid);
      assert Waits(s, t, mu.tid);
    }
  }

  /** Whoever holds the mutex of a node is not stuck: it waits for nothing, or its wait times out. */
  lemma HolderSteps(s: State, u: Tid)
    requires Typed(s) && u < |s.threads| && HoldsMu(s.threads[u].pc)
    ensures CanStep(s, u)
  {}

  /** In a chain of two waits the middle thread is a close in wait, or a lookup someone needs the lock of. */
  lemma MiddleOfChain(s: State, t: Tid, u: Tid, v: Tid)
    requires Typed(s) && LockInv(s) && MuInv(s) && Waits(s, t, u) && Waits(s, u, v)
    ensures var pc := s.threads[u].pc;
            (pc.C? && pc.c.CLock?) || (pc.G? && pc.g.GMu? && WantsLock(s.threads[t].pc))
  {}

  /** The place after `i` on a ring of `n`. */
  function After(i: nat, n: nat): nat {
    if i + 1 < n then i + 1 else 0
  }

  /** `ring` is a cycle of waits. */
  predicate WaitCycle(s: State, ring: seq<Tid>) {
    ring != [] && forall i: nat | i < |ring| :: Waits(s, ring[i], ring[After(i, |ring|)])
  }

  lemma CycleHasCloser(s: State, ring: seq<Tid>) returns (i: nat)
    requires Typed(s) && LockInv(s) && MuInv(s) && WaitCycle(s, ring)
    ensures i < |ring| && Active(s, ring[i]) && s.threads[ring[i]].pc.C? && s.threads[ring[i]].pc.c.CLock?
  {
    var i1 := After(0, |ring|);
    var i2 := After(i1, |ring|);
    MiddleOfChain(s, ring[0], ring[i1], ring[i2]);
    MiddleOfChain(s, ring[i1], ring[i2], ring[After(i2, |ring|)]);
    i := if s.threads[ring[i1]].pc.C? then i1 else i2;
  }

  /** Every cycle of waits runs through a close waiting for its etcd lock, and the timeout of that wait breaks it. */
  lemma CyclePassesThroughClose(s0: State, acts: seq<Action>, ring: seq<Tid>)
    requires Init(s0) && Runs(s0, acts) && WaitCycle(Exec(s0, acts), ring)
    ensures var s := Exec(s0, acts);
            exists i: nat :: i < |ring| && Active(s, ring[i]) && s.threads[ring[i]].pc.C?
                             && s.threads[ring[i]].pc.c.CLock? && Enabled(s, Fail(ring[i]))
  {
    LocksOfRun(s0, acts);
    var i := CycleHasCloser(Exec(s0, acts), ring);
  }

  lemma {:induction false} LocksOfRun(s: State, acts: seq<Action>)
    requires Typed(s) && LockInv(s) && MuInv(s) && Runs(s, acts)
    ensures LockInv(Exec(s, acts)) && MuInv(Exec(s, acts))
    decreases |acts|
  {
    if acts != [] {
      LocksKept(s, acts[0]);
      LocksOfRun(Apply(s, acts[0]), acts[1..]);
    }
  }

  // ---- every operation finishes ----

  /** How many statements a thread has left at most. */
  function Rank(pc: Pc): nat {
    match pc
    case Idle => 0
    case G(_, _, g) =>
      (match g
       case GNew => 10 case GLock => 9 case GGet => 8 case GGrant => 7 case GKeep(_) => 6
       case GMu(_) => 5 case GPut(_) => 4 case GUnMu(_) => 3 case GUnlock(_) => 2 case GReturn(_) => 1)
    case E(_, e) => (match e case EMu => 3 case EInsert => 2 case EUnMu => 1)
    case C(_, _, c) =>
      (match c
       case CMu => 9 case CNew => 8 case CLock => 7 case CCancel => 6 case CDelete => 5
       case CLocal => 4 case CGauge => 3 case CUnlock => 2 case CUnMu => 1)
  }

  function Work(threads: seq<Thread>): nat {
    if threads == [] then 0 else Rank(threads[0].pc) + Work(threads[1..])
  }

  lemma {:induction false} WorkUpdate(threads: seq<Thread>, t: nat, th: Thread)
    requires t < |threads|
    ensures Work(threads[t := th]) + Rank(threads[t].pc) == Work(threads) + Rank(th.pc)
  {
    if t > 0 {
      WorkUpdate(threads[1..], t - 1, th);
      assert threads[t := th][1..] == threads[1..][t - 1 := th];
    } else {
      assert threads[t := th][1..] == threads[1..];
    }
  }

  lemma {:induction false} NoWorkNoneActive(threads: seq<Thread>)
    ensures Work(threads) == 0 <==> forall t: nat | t < |threads| :: threads[t].pc.Idle?
  {
    if threads != [] {
      NoWorkNoneActive(threads[1..]);
      assert forall t: nat | 0 < t < |threads| :: threads[t] == threads[1..][t - 1];
      assert forall t: nat | t < |threads[1..]| :: threads[1..][t] == threads[t + 1];
      assert Rank(threads[0].pc) == 0 <==> threads[0].pc.Idle?;
    }
  }

  /** Finishing a statement, or failing in it, brings a thread closer to its end. */
  lemma StepWorks(s: State, a: Action)
    requires Typed(s) && Enabled(s, a) && (a.Go? || a.Fail?)
    ensures Work(Apply(s, a).threads) < Work(s.threads)
  {
    ApplyEffect(s, a);
    var s', t := Apply(s, a), a.tid;
    assert s'.threads == s.threads[t := s'.threads[t]];
    WorkUpdate(s.threads, t, s'.threads[t]);
    RankFalls(s.threads[t].pc, s'.threads[t].pc);
  }

  lemma RankFalls(pc: Pc, pc': Pc)
    requires PcEffect(pc, pc') && !pc.Idle?
    requires pc.E? && pc.e.EUnMu? ==> pc'.Idle?
    ensures Rank(pc') < Rank(pc)
  {}

  predicate OnlySteps(acts: seq<Action>) {
    forall i: nat | i < |acts| :: acts[i].Go? || acts[i].Fail?
  }

  /** No operation is called; leases and orphaned locks may expire. */
  predicate NoNewCalls(acts: seq<Action>) {
    forall i: nat | i < |acts| :: !acts[i].Lookup? && !acts[i].GetSession? && !acts[i].Close?
  }

  /** How many of the actions are statements of threads, finished or failed. */
  function Statements(acts: seq<Action>): nat {
    if acts == [] then 0 else (if acts[0].Go? || acts[0].Fail? then 1 else 0) + Statements(acts[1..])
  }

  /** No livelock: whatever expires in between, without new calls no more statements run than the work at hand. */
  lemma {:induction false} StepsAreBounded(s: State, acts: seq<Action>)
    requires Typed(s) && Runs(s, acts) && NoNewCalls(acts)
    ensures Statements(acts) <= Work(s.threads)
    decreases |acts|
  {
    if acts != [] {
      ApplyTyped(s, acts[0]);
      if acts[0].Go? || acts[0].Fail? {
        StepWorks(s, acts[0]);
      } else {
        assert Apply(s, acts[0]).threads == s.threads;
      }
      StepsAreBounded(Apply(s, acts[0]), acts[1..]);
    }
  }

  /** No deadlock: from every state the operations under way can all be run to their end. */
  lemma {:induction false} Drain(s: State) returns (acts: seq<Action>)
    requires Typed(s) && LockInv(s) && MuInv(s)
    ensures OnlySteps(acts) && Runs(s, acts)
    ensures forall t: Tid | t < |Exec(s, acts).threads| :: Exec(s, acts).threads[t].pc.Idle?
    decreases Work(s.threads)
  {
    NoWorkNoneActive(s.threads);
    if Work(s.threads) == 0 {
      acts := [];
    } else {
      var t: Tid :| t < |s.threads| && !s.threads[t].pc.Idle?;
      SomeoneSteps(s, t);
      var u: Tid := t;
      if !CanStep(s, t) {
        u :| Waits(s, t, u) && CanStep(s, u);
      }
      var a := if Enabled(s, Go(u)) then Go(u) else Fail(u);
      LocksKept(s, a);
      StepWorks(s, a);
      var rest := Drain(Apply(s, a));
      acts := [a] + rest;
      assert acts[1..] == rest;
    }
  }

  /**
   * In every reachable state the operations under way can be finished by their own steps, and
   * in every run without new calls, however it is scheduled and whatever expires in it, they
   * take no more than a bounded number of statements.
   */
  lemma OperationsFinish(s0: State, acts: seq<Action>)
    requires Init(s0) && Runs(s0, acts)
    ensures var s := Exec(s0, acts);
            && (exists rest :: OnlySteps(rest) && Runs(s, rest)
                               && forall t: Tid | t < |Exec(s, rest).threads| :: Exec(s, rest).threads[t].pc.Idle?)
            && (forall rest | NoNewCalls(rest) && Runs(s, rest) :: Statements(rest) <= 10 * |s.threads|)
  {
    LocksOfRun(s0, acts);
    var s := Exec(s0, acts);
    var rest := Drain(s);
    forall rest | NoNewCalls(rest) && Runs(s, rest) ensures Statements(rest) <= 10 * |s.threads| {
      StepsAreBounded(s, rest);
      WorkBound(s.threads);
    }
  }

  lemma {:induction false} WorkBound(threads: seq<Thread>)
    ensures Work(threads) <= 10 * |threads|
  {
    if threads != [] {
      WorkBound(threads[1..]);
    }
  }
}
