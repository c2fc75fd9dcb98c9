/** What the expiry of leases and of orphaned locks does, over every run. */
module EtcdExpiry {
  import opened EtcdProtocol
  import opened EtcdEffects
  import opened EtcdLocks
  import opened EtcdRuns
  import opened EtcdProgress

  // ---- leases ----

  /** Only leases that etcd still has are kept alive or hold entries. */
  ghost predicate LiveInv(s: State) {
    && (forall l: Lease | l in s.live :: l < |s.granted|)
    && s.kept <= s.live
    && (forall sid | sid in s.registry :: s.registry[sid].lease in s.live)
  }

  /** The lease was granted and etcd no longer has it. */
  predicate Expired(s: State, l: Lease) {
    l < |s.granted| && l !in s.live
  }

  lemma LiveByThread(s: State, t: Tid, s': State)
    requires Typed(s) && t < |s.threads| && LiveInv(s) && StepOf(s, t, s')
    requires PcEffect(s.threads[t].pc, s'.threads[t].pc) && RegistryEffect(s, t, s') && LeaseEffect(s, t, s')
    ensures LiveInv(s') && forall l: Lease | Expired(s, l) :: Expired(s', l)
  {}

  lemma LiveKept(s: State, a: Action)
    requires Typed(s) && LiveInv(s) && Enabled(s, a)
    ensures LiveInv(Apply(s, a))
    ensures forall l: Lease | Expired(s, l) || a == Expire(l) :: Expired(Apply(s, a), l)
  {
    if ByThread(a) {
      ApplyEffect(s, a);
      LiveByThread(s, a.tid, Apply(s, a));
    }
  }

  lemma {:induction false} LiveOfRun(s: State, acts: seq<Action>)
    requires Typed(s) && LiveInv(s) && Runs(s, acts)
    ensures LiveInv(Exec(s, acts))
    ensures forall l: Lease | Expired(s, l) || Expire(l) in acts :: Expired(Exec(s, acts), l)
    decreases |acts|
  {
    if acts != [] {
      ApplyTyped(s, acts[0]);
      LiveKept(s, acts[0]);
      LiveOfRun(Apply(s, acts[0]), acts[1..]);
      assert acts == [acts[0]] + acts[1..];
    }
  }

  /**
   * In every run: what is kept alive and what holds an entry is alive; and once a lease has
   * expired it is never again alive, kept alive or the lease of an entry, so that a lookup
   * about to store its session under it cannot: its Put fails.
   */
  lemma ExpiredForever(s0: State, acts: seq<Action>)
    requires Init(s0) && Runs(s0, acts)
    ensures var s := Exec(s0, acts);
            && s.kept <= s.live && (forall sid | sid in s.registry :: s.registry[sid].lease in s.live)
            && (forall l: Lease | Expire(l) in acts ::
                  && l !in s.live && l !in s.kept
                  && (forall sid | sid in s.registry :: s.registry[sid].lease != l)
                  && (forall t: Tid | t < |s.threads| && s.threads[t].pc.G? && s.threads[t].pc.g == GPut(l) ::
                        !Enabled(s, Go(t)) && Enabled(s, Fail(t)) && Apply(s, Fail(t)).registry == s.registry))
  {
    LiveOfRun(s0, acts);
  }

  // ---- locks ----

  /** With nobody at work, whoever still holds a lock is gone. */
  lemma IdleLocksAreOrphans(s: State)
    requires LockInv(s) && forall t: Tid | t < |s.threads| :: s.threads[t].pc.Idle?
    ensures forall sid | sid in s.locks :: s.locks[sid].Orphaned?
  {}

  /** Orphaned locks run out one by one, and nothing else changes. */
  lemma {:induction false} FreeOrphans(s: State) returns (acts: seq<Action>)
    requires Typed(s) && forall sid | sid in s.locks :: s.locks[sid].Orphaned?
    ensures Runs(s, acts) && Exec(s, acts) == s.(locks := map[])
    ensures forall i: nat | i < |acts| :: acts[i].OrphanExpires?
    decreases |s.locks|
  {
    if s.locks == map[] {
      acts := [];
    } else {
      var sid :| sid in s.locks;
      var a := OrphanExpires(sid);
      ApplyTyped(s, a);
      assert (s.locks - {sid}).Keys == s.locks.Keys - {sid};
      var rest := FreeOrphans(Apply(s, a));
      acts := [a] + rest;
      assert acts[1..] == rest;
    }
  }

  /**
   * No lock is for ever: from every reachable state the operations under way can finish and
   * the locks they or others left behind can run out, without any new call.
   */
  lemma LocksComeFree(s0: State, acts: seq<Action>)
    requires Init(s0) && Runs(s0, acts)
    ensures exists rest :: NoNewCalls(rest) && Runs(Exec(s0, acts), rest)
                           && Exec(Exec(s0, acts), rest).locks == map[]
                           && forall t: Tid | t < |Exec(Exec(s0, acts), rest).threads| ::
                                Exec(Exec(s0, acts), rest).threads[t].pc.Idle?
  {
    var s := Exec(s0, acts);
    LocksOfRun(s0, acts);
    var steps := Drain(s);
    LocksOfRun(s, steps);
    IdleLocksAreOrphans(Exec(s, steps));
    var freed := FreeOrphans(Exec(s, steps));
    RunOn(s, steps, freed);
    assert NoNewCalls(steps + freed);
  }
}
