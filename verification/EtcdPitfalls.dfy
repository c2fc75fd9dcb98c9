/** Runs that show what the coordinator does not promise, and that nothing asked of a run for it is idle. */
module EtcdPitfalls {
  import opened SessionMeta
  import opened EtcdProtocol
  import opened EtcdRuns
  import opened EtcdProgress
  import opened EtcdHosting
  import opened EtcdLeftovers

  const QUIET: Node := Node("", Free, map[], map[], 0)

  /** `nodes` fresh nodes, and one idle thread on each node named in `where`. */
  function Fresh(nodes: nat, where: seq<NodeId>): State {
    State(map[], map[], [], {}, {}, seq(nodes, (i: nat) => QUIET), [],
          seq(|where|, (i: nat) requires i < |where| => Thread(where[i], Idle)), [])
  }

  // ---- growing a run ----

  /** Nothing fails and nothing expires. */
  predicate Plain(acts: seq<Action>) {
    forall i: nat | i < |acts| :: !acts[i].Fail? && !acts[i].Expire? && !acts[i].OrphanExpires?
  }

  /** `acts'` goes on from `acts` with nothing failing or expiring, and with discipline. */
  ghost predicate Extends(s0: State, acts: seq<Action>, acts': seq<Action>)
    requires Typed(s0) && Runs(s0, acts)
  {
    && Runs(s0, acts')
    && (Plain(acts) ==> Plain(acts'))
    && (DisciplinedRun(s0, acts) ==> DisciplinedRun(s0, acts'))
  }

  lemma {:induction false} ExtendDisciplined(s: State, acts: seq<Action>, a: Action)
    requires Typed(s) && Runs(s, acts) && Enabled(Exec(s, acts), a) && Runs(s, acts + [a])
    requires DisciplinedRun(s, acts) && Disciplined(Exec(s, acts), a)
    ensures DisciplinedRun(s, acts + [a])
    decreases |acts|
  {
    if acts == [] {
      assert (acts + [a])[1..] == [];
    } else {
      ApplyTyped(s, acts[0]);
      assert (acts + [a])[1..] == acts[1..] + [a];
      ExtendDisciplined(Apply(s, acts[0]), acts[1..], a);
    }
  }

  /** One more action; it extends the run in the above sense unless it fails, expires or breaks the discipline. */
  lemma Do(s0: State, acts: seq<Action>, a: Action) returns (acts': seq<Action>)
    requires Typed(s0) && Runs(s0, acts) && Enabled(Exec(s0, acts), a)
    ensures Runs(s0, acts') && Exec(s0, acts') == Apply(Exec(s0, acts), a)
    ensures !a.Fail? && !a.Expire? && !a.OrphanExpires? && Plain(acts) ==> Plain(acts')
    ensures Disciplined(Exec(s0, acts), a) && DisciplinedRun(s0, acts) ==> DisciplinedRun(s0, acts')
  {
    Extend(s0, acts, a);
    acts' := acts + [a];
    if Disciplined(Exec(s0, acts), a) && DisciplinedRun(s0, acts) {
      ExtendDisciplined(s0, acts, a);
    }
  }

  // ---- GetSession ----

  function Inserting(s: State, t: Tid, sid: Sid): State
    requires IdleThread(s, t)
  {
    var n := s.threads[t].node;
    s.(threads := s.threads[t := Thread(n, E(sid, EInsert))],
       nodes := s.nodes[n := s.nodes[n].(mu := TakenBy(t), gauge := s.nodes[n].gauge + 1)])
  }

  lemma InsertingIsNext(s: State, t: Tid, sid: Sid)
    requires Typed(s) && IdleThread(s, t) && Typed(Apply(s, GetSession(t, sid)))
    requires s.nodes[s.threads[t].node].mu.Free? && sid !in s.nodes[s.threads[t].node].sessions
    ensures Enabled(Apply(s, GetSession(t, sid)), Go(t))
    ensures Apply(Apply(s, GetSession(t, sid)), Go(t)) == Inserting(s, t, sid)
  {
    assert Apply(Apply(s, GetSession(t, sid)), Go(t)).threads == Inserting(s, t, sid).threads;
  }

  /** Thread `t`, idle, calls `GetSession` and is about to insert a new session. */
  lemma RunToInsert(s0: State, acts: seq<Action>, t: Tid, sid: Sid) returns (acts': seq<Action>)
    requires Typed(s0) && Runs(s0, acts)
    requires var s := Exec(s0, acts);
             IdleThread(s, t) && s.nodes[s.threads[t].node].mu.Free? && sid !in s.nodes[s.threads[t].node].sessions
    ensures Extends(s0, acts, acts') && Exec(s0, acts') == Inserting(Exec(s0, acts), t, sid)
  {
    acts' := Do(s0, acts, GetSession(t, sid));
    InsertingIsNext(Exec(s0, acts), t, sid);
    acts' := Do(s0, acts', Go(t));
  }

  /** It inserts the session and lets go of the mutex. */
  lemma RunFromInsert(s0: State, acts: seq<Action>, t: Tid, sid: Sid) returns (acts': seq<Action>)
    requires Typed(s0) && Runs(s0, acts)
    requires var s := Exec(s0, acts); Active(s, t) && s.threads[t].pc == E(sid, EInsert)
    ensures Runs(s0, acts') && (Plain(acts) ==> Plain(acts'))
    ensures var s, n := Exec(s0, acts), Exec(s0, acts).threads[t].node;
            && (DisciplinedRun(s0, acts) && Ticket(s.log, n, sid) ==> DisciplinedRun(s0, acts'))
            && Exec(s0, acts') ==
               s.(threads := s.threads[t := Thread(n, Idle)],
                  objects := s.objects + [Object(n, sid, Open)],
                  nodes := s.nodes[n := s.nodes[n].(sessions := s.nodes[n].sessions[sid := |s.objects|], mu := Free)])
  {
    var s, n := Exec(s0, acts), Exec(s0, acts).threads[t].node;
    acts' := Do(s0, acts, Go(t));
    acts' := Do(s0, acts', Go(t));
    assert Exec(s0, acts').threads == s.threads[t := Thread(n, Idle)];
    assert Exec(s0, acts').nodes ==
           s.nodes[n := s.nodes[n].(sessions := s.nodes[n].sessions[sid := |s.objects|], mu := Free)];
  }

  function Inserted(s: State, t: Tid, sid: Sid): State
    requires IdleThread(s, t)
  {
    var n := s.threads[t].node;
    s.(objects := s.objects + [Object(n, sid, Open)],
       nodes := s.nodes[n := s.nodes[n].(sessions := s.nodes[n].sessions[sid := |s.objects|],
                                         gauge := s.nodes[n].gauge + 1)])
  }

  lemma InsertedInAll(s: State, t: Tid, sid: Sid, s': State)
    requires IdleThread(s, t) && s.nodes[s.threads[t].node].mu.Free?
    requires var n, mid := s.threads[t].node, Inserting(s, t, sid);
             s' == mid.(threads := mid.threads[t := Thread(n, Idle)],
                        objects := s.objects + [Object(n, sid, Open)],
                        nodes := mid.nodes[n := mid.nodes[n].(sessions := s.nodes[n].sessions[sid := |s.objects|],
                                                              mu := Free)])
    ensures s' == Inserted(s, t, sid)
  {
    assert s'.threads == s.threads;
    assert s'.nodes == Inserted(s, t, sid).nodes;
  }

  /** Thread `t`, idle, calls `GetSession` and runs to its end; with a ticket that is disciplined. */
  lemma RunGetSession(s0: State, acts: seq<Action>, t: Tid, sid: Sid) returns (acts': seq<Action>)
    requires Typed(s0) && Runs(s0, acts)
    requires var s := Exec(s0, acts);
             IdleThread(s, t) && s.nodes[s.threads[t].node].mu.Free? && sid !in s.nodes[s.threads[t].node].sessions
    ensures Runs(s0, acts') && Exec(s0, acts') == Inserted(Exec(s0, acts), t, sid)
    ensures Plain(acts) ==> Plain(acts')
    ensures DisciplinedRun(s0, acts) && Ticket(Exec(s0, acts).log, Exec(s0, acts).threads[t].node, sid) ==>
              DisciplinedRun(s0, acts')
  {
    var s := Exec(s0, acts);
    acts' := RunToInsert(s0, acts, t, sid);
    acts' := RunFromInsert(s0, acts', t, sid);
    InsertedInAll(s, t, sid, Exec(s0, acts'));
  }

  /**
   * Two nodes host one session, with no registry entry at all, when each asks for it without
   * a lookup. Nothing fails and nothing expires in the run, so that the ticket rule is the
   * only part of the discipline it breaks.
   */
  lemma TwoHostsWithoutLookup(sid: Sid)
    ensures exists s0, acts ::
              Init(s0) && Runs(s0, acts) && Plain(acts)
              && Hosts(Exec(s0, acts), 0, sid) && Hosts(Exec(s0, acts), 1, sid) && sid !in Exec(s0, acts).registry
  {
    var s0 := Fresh(2, [0, 1]);
    var acts := RunGetSession(s0, [], 0, sid);
    var acts' := RunGetSession(s0, acts, 1, sid);
    assert Init(s0) && Runs(s0, acts') && Hosts(Exec(s0, acts'), 0, sid) && Hosts(Exec(s0, acts'), 1, sid);
  }

  // ---- getOrCreateSession ----

  /** Thread `t` looks up an unregistered session, comes to hold its etcd lock and finds no entry. */
  lemma RunToGrant(s0: State, acts: seq<Action>, t: Tid, sid: Sid) returns (acts': seq<Action>)
    requires Typed(s0) && Runs(s0, acts)
    requires var s := Exec(s0, acts); IdleThread(s, t) && sid !in s.locks && sid !in s.registry
    ensures Extends(s0, acts, acts')
    ensures var s, n := Exec(s0, acts), Exec(s0, acts).threads[t].node;
            Exec(s0, acts') == s.(threads := s.threads[t := Thread(n, G(sid, |s.log|, GGrant))],
                                  locks := s.locks[sid := Held(t)],
                                  log := s.log + [Invoke(n, sid)])
  {
    var s := Exec(s0, acts);
    acts' := Do(s0, acts, Lookup(t, sid));
    acts' := Do(s0, acts', Go(t));
    acts' := Do(s0, acts', Go(t));
    acts' := Do(s0, acts', Go(t));
    assert Exec(s0, acts').threads == s.threads[t := Thread(s.threads[t].node, G(sid, |s.log|, GGrant))];
  }

  /** It is granted a lease. */
  lemma RunToKeep(s0: State, acts: seq<Action>, t: Tid, sid: Sid, call: nat) returns (acts': seq<Action>)
    requires Typed(s0) && Runs(s0, acts)
    requires var s := Exec(s0, acts); Active(s, t) && s.threads[t].pc == G(sid, call, GGrant)
    ensures Extends(s0, acts, acts')
    ensures var s, n := Exec(s0, acts), Exec(s0, acts).threads[t].node;
            var l := |s.granted|;
            Exec(s0, acts') == s.(threads := s.threads[t := Thread(n, G(sid, call, GKeep(l)))],
                                  granted := s.granted + [Owner(n, sid)],
                                  live := s.live + {l})
  {
    acts' := Do(s0, acts, Go(t));
  }

  /** Its keep-alive starts, and it wants the mutex of its node. */
  lemma RunToMu(s0: State, acts: seq<Action>, t: Tid, sid: Sid, call: nat, l: Lease) returns (acts': seq<Action>)
    requires Typed(s0) && Runs(s0, acts)
    requires var s := Exec(s0, acts); Active(s, t) && s.threads[t].pc == G(sid, call, GKeep(l)) && l in s.live
    ensures Extends(s0, acts, acts')
    ensures var s, n := Exec(s0, acts), Exec(s0, acts).threads[t].node;
            Exec(s0, acts') == s.(threads := s.threads[t := Thread(n, G(sid, call, GMu(l)))], kept := s.kept + {l})
  {
    acts' := Do(s0, acts, Go(t));
  }

  /** It takes the mutex and stores its handle. */
  lemma RunToPut(s0: State, acts: seq<Action>, t: Tid, sid: Sid, call: nat, l: Lease) returns (acts': seq<Action>)
    requires Typed(s0) && Runs(s0, acts)
    requires var s := Exec(s0, acts);
             Active(s, t) && s.threads[t].pc == G(sid, call, GMu(l)) && s.nodes[s.threads[t].node].mu.Free?
    ensures Extends(s0, acts, acts')
    ensures var s, n := Exec(s0, acts), Exec(s0, acts).threads[t].node;
            Exec(s0, acts') ==
            s.(threads := s.threads[t := Thread(n, G(sid, call, GPut(l)))],
               nodes := s.nodes[n := s.nodes[n].(mu := TakenBy(t), leases := s.nodes[n].leases[sid := l])])
  {
    acts' := Do(s0, acts, Go(t));
  }

  /** It stores the session. */
  lemma RunToStored(s0: State, acts: seq<Action>, t: Tid, sid: Sid, call: nat, l: Lease) returns (acts': seq<Action>)
    requires Typed(s0) && Runs(s0, acts)
    requires var s := Exec(s0, acts); Active(s, t) && s.threads[t].pc == G(sid, call, GPut(l)) && l in s.live
    ensures Extends(s0, acts, acts')
    ensures var s, n := Exec(s0, acts), Exec(s0, acts).threads[t].node;
            var m := OwnMeta(sid, n, s.nodes[n].endpoint);
            Exec(s0, acts') == s.(threads := s.threads[t := Thread(n, G(sid, call, GUnMu(Got(m, |s.log|))))],
                                  registry := s.registry[sid := Entry(m, l)],
                                  log := s.log + [Take(call, m)])
  {
    acts' := Do(s0, acts, Go(t));
  }

  /** It lets go of the mutex and the etcd lock, and returns. */
  lemma RunToReturn(s0: State, acts: seq<Action>, t: Tid, sid: Sid, call: nat, out: Outcome)
    returns (acts': seq<Action>)
    requires Typed(s0) && Runs(s0, acts)
    requires var s := Exec(s0, acts); Active(s, t) && s.threads[t].pc == G(sid, call, GUnMu(out))
    ensures Extends(s0, acts, acts')
    ensures var s, n := Exec(s0, acts), Exec(s0, acts).threads[t].node;
            Exec(s0, acts') == s.(threads := s.threads[t := Thread(n, Idle)],
                                  nodes := s.nodes[n := s.nodes[n].(mu := Free)],
                                  locks := s.locks - {sid},
                                  log := s.log + [Return(call, out)])
  {
    var s, n := Exec(s0, acts), Exec(s0, acts).threads[t].node;
    acts' := Do(s0, acts, Go(t));
    acts' := Do(s0, acts', Go(t));
    acts' := Do(s0, acts', Go(t));
    assert Exec(s0, acts').threads == s.threads[t := Thread(n, Idle)];
  }

  /** What a lookup that took an unregistered session has changed. */
  ghost predicate Took(s: State, s': State, t: Tid, sid: Sid, l: Lease)
    requires IdleThread(s, t)
  {
    var n := s.threads[t].node;
    && s'.threads == s.threads && s'.objects == s.objects && s'.locks == s.locks
    && s'.live == s.live + {l}
    && s'.nodes == s.nodes[n := s.nodes[n].(leases := s.nodes[n].leases[sid := l])]
    && s'.registry == s.registry[sid := Entry(OwnMeta(sid, n, s.nodes[n].endpoint), l)]
    && s'.log == AfterTake(s.log + [Invoke(n, sid)], |s.log|, OwnMeta(sid, n, s.nodes[n].endpoint))
    && Ticket(s'.log, n, sid)
  }

  /** From the mutex on, whether or not the lease is kept alive. */
  lemma RunFromMu(s0: State, acts: seq<Action>, t: Tid, sid: Sid, call: nat, l: Lease) returns (acts': seq<Action>)
    requires Typed(s0) && Runs(s0, acts)
    requires var s := Exec(s0, acts);
             && Active(s, t) && s.threads[t].pc == G(sid, call, GMu(l)) && l in s.live
             && s.nodes[s.threads[t].node].mu.Free?
             && call < |s.log| && s.log[call] == Invoke(s.threads[t].node, sid)
    ensures Extends(s0, acts, acts')
    ensures var s, s', n := Exec(s0, acts), Exec(s0, acts'), Exec(s0, acts).threads[t].node;
            && s'.threads == s.threads[t := Thread(n, Idle)] && s'.objects == s.objects && s'.locks == s.locks - {sid}
            && s'.live == s.live && s'.kept == s.kept && s'.granted == s.granted
            && s'.nodes == s.nodes[n := s.nodes[n].(leases := s.nodes[n].leases[sid := l])]
            && s'.registry == s.registry[sid := Entry(OwnMeta(sid, n, s.nodes[n].endpoint), l)]
            && s'.log == AfterTake(s.log, call, OwnMeta(sid, n, s.nodes[n].endpoint)) && Ticket(s'.log, n, sid)
  {
    var s, n := Exec(s0, acts), Exec(s0, acts).threads[t].node;
    var m := OwnMeta(sid, n, s.nodes[n].endpoint);
    acts' := RunToPut(s0, acts, t, sid, call, l);
    acts' := RunToStored(s0, acts', t, sid, call, l);
    acts' := RunToReturn(s0, acts', t, sid, call, Got(m, |s.log|));
    var s' := Exec(s0, acts');
    assert s'.threads == s.threads[t := Thread(n, Idle)];
    assert s'.nodes == s.nodes[n := s.nodes[n].(leases := s.nodes[n].leases[sid := l])];
    TicketHere(s.log, call, n, sid, m);
  }

  /** The history once call `call` has taken the session and returned. */
  function AfterTake(log: seq<Event>, call: nat, m: Meta): seq<Event> {
    log + [Take(call, m)] + [Return(call, Got(m, |log|))]
  }

  lemma TicketHere(log: seq<Event>, call: nat, n: NodeId, sid: Sid, m: Meta)
    requires call < |log| && log[call] == Invoke(n, sid) && !m.redirect
    ensures Ticket(AfterTake(log, call, m), n, sid)
  {
    assert ToldOwner(AfterTake(log, call, m), |log|, n, sid);
  }

  /** Thread `t`, idle, looks up an unregistered session and takes it. */
  lemma RunLookup(s0: State, acts: seq<Action>, t: Tid, sid: Sid) returns (acts': seq<Action>, l: Lease)
    requires Typed(s0) && Runs(s0, acts)
    requires var s := Exec(s0, acts);
             IdleThread(s, t) && sid !in s.locks && sid !in s.registry && s.nodes[s.threads[t].node].mu.Free?
    ensures Extends(s0, acts, acts') && Took(Exec(s0, acts), Exec(s0, acts'), t, sid, l)
    ensures l == |Exec(s0, acts).granted| && Exec(s0, acts').kept == Exec(s0, acts).kept + {l}
    ensures Exec(s0, acts').granted == Exec(s0, acts).granted + [Owner(Exec(s0, acts).threads[t].node, sid)]
  {
    var s := Exec(s0, acts);
    l := |s.granted|;
    acts' := RunToGrant(s0, acts, t, sid);
    acts' := RunToKeep(s0, acts', t, sid, |s.log|);
    acts' := RunToMu(s0, acts', t, sid, |s.log|, l);
    acts' := RunFromMu(s0, acts', t, sid, |s.log|, l);
    assert Exec(s0, acts').threads == s.threads;
    assert s.locks[sid := Held(t)] - {sid} == s.locks;
  }

  // ---- every clause of the discipline is needed ----

  /** A disciplined run, one action that is not, and a disciplined run from there to two hosts. */
  ghost predicate OneBreach(s0: State, before: seq<Action>, a: Action, after: seq<Action>, sid: Sid) {
    && Init(s0) && Runs(s0, before) && DisciplinedRun(s0, before)
    && var s := Exec(s0, before);
    && Enabled(s, a) && !Disciplined(s, a)
    && (ApplyTyped(s, a); Runs(Apply(s, a), after) && DisciplinedRun(Apply(s, a), after))
    && Hosts(Exec(Apply(s, a), after), 0, sid) && Hosts(Exec(Apply(s, a), after), 1, sid)
  }

  /** Node 0 hosts the session under a handle, node 1 has done nothing. */
  ghost predicate FirstHosts(s: State, sid: Sid) {
    && s.threads == [Thread(0, Idle), Thread(1, Idle)] && |s.nodes| == 2 && s.nodes[1] == QUIET
    && s.nodes[0].mu.Free? && s.nodes[0].sessions == map[sid := 0] && sid in s.nodes[0].leases
    && s.objects == [Object(0, sid, Open)] && s.locks == map[]
  }

  /** Its key has gone, and node 1 takes and opens the session too. */
  lemma RunToSecondHost(s0: State, acts: seq<Action>, sid: Sid) returns (acts': seq<Action>)
    requires Typed(s0) && Runs(s0, acts) && FirstHosts(Exec(s0, acts), sid) && sid !in Exec(s0, acts).registry
    ensures Extends(s0, acts, acts') && Hosts(Exec(s0, acts'), 0, sid) && Hosts(Exec(s0, acts'), 1, sid)
  {
    var l;
    acts', l := RunLookup(s0, acts, 1, sid);
    acts' := RunGetSession(s0, acts', 1, sid);
  }

  /** Node 0 takes and opens a session. */
  lemma RunToHosted(s0: State, sid: Sid) returns (acts: seq<Action>, l: Lease)
    requires s0 == Fresh(2, [0, 1])
    ensures Typed(s0) && Runs(s0, acts) && DisciplinedRun(s0, acts) && FirstHosts(Exec(s0, acts), sid)
    ensures var s := Exec(s0, acts);
            && l in s.live && l in s.kept && s.registry == map[sid := Entry(OwnMeta(sid, 0, ""), l)]
            && s.log == AfterTake([Invoke(0, sid)], 0, OwnMeta(sid, 0, ""))
  {
    acts, l := RunLookup(s0, [], 0, sid);
    acts := RunGetSession(s0, acts, 0, sid);
  }

  lemma NoTicketForOther(sid: Sid, m: Meta)
    ensures !Ticket(AfterTake([Invoke(0, sid)], 0, m), 1, sid)
  {
    var log := AfterTake([Invoke(0, sid)], 0, m);
    forall i: nat ensures !ToldOwner(log, i, 1, sid) {
      assert i < |log| && log[i].Take? ==> i == 1;
    }
  }

  /**
   * The only breach is that one session is inserted without a lookup of its node: the other
   * node, which owns the session, comes to share it.
   */
  lemma TwoHostsWithoutTicket(sid: Sid)
    ensures exists s0, before, t, after :: OneBreach(s0, before, Go(t), after, sid)
  {
    var s0 := Fresh(2, [0, 1]);
    var before, l := RunToHosted(s0, sid);
    NoTicketForOther(sid, OwnMeta(sid, 0, ""));
    before := RunToInsert(s0, before, 1, sid);
    var s := Apply(Exec(s0, before), Go(1));
    assert Hosts(s, 0, sid) && Hosts(s, 1, sid);
    assert OneBreach(s0, before, Go(1), [], sid);
  }

  /**
   * The only breach is that a lease expires although it is kept alive: each of two nodes looks
   * the session up, stores a handle for it, and comes to host it.
   */
  lemma TwoHostsAfterExpiry(sid: Sid)
    ensures exists s0, before, l, after :: OneBreach(s0, before, Expire(l), after, sid)
  {
    var s0 := Fresh(2, [0, 1]);
    var before, l := RunToHosted(s0, sid);
    var s := Apply(Exec(s0, before), Expire(l));
    assert s.registry == map[];
    var after := RunToSecondHost(s, [], sid);
    assert OneBreach(s0, before, Expire(l), after, sid);
  }

  /** Node 0 is about to have its new lease kept alive. */
  lemma RunToKeepAlive(s0: State, sid: Sid) returns (acts: seq<Action>)
    requires s0 == Fresh(2, [0, 1])
    ensures Typed(s0) && Runs(s0, acts) && DisciplinedRun(s0, acts)
    ensures Exec(s0, acts) == s0.(threads := [Thread(0, G(sid, 0, GKeep(0))), Thread(1, Idle)],
                                  locks := map[sid := Held(0)],
                                  log := [Invoke(0, sid)], granted := [Owner(0, sid)], live := {0})
  {
    acts := RunToGrant(s0, [], 0, sid);
    acts := RunToKeep(s0, acts, 0, sid, 0);
    assert Exec(s0, acts).threads == [Thread(0, G(sid, 0, GKeep(0))), Thread(1, Idle)];
  }

  /** It goes on without the keep-alive, opens the session, and its lease expires as it may. */
  lemma RunWithoutKeepAlive(s: State, sid: Sid) returns (acts: seq<Action>)
    requires s == Fresh(2, [0, 1]).(threads := [Thread(0, G(sid, 0, GMu(0))), Thread(1, Idle)],
                                    locks := map[sid := Held(0)],
                                    log := [Invoke(0, sid)], granted := [Owner(0, sid)], live := {0})
    ensures Typed(s) && Runs(s, acts) && DisciplinedRun(s, acts)
    ensures FirstHosts(Exec(s, acts), sid) && Exec(s, acts).registry == map[]
  {
    acts := RunFromMu(s, [], 0, sid, 0, 0);
    acts := RunGetSession(s, acts, 0, sid);
    var s1 := Exec(s, acts);
    acts := Do(s, acts, Expire(0));
    assert Exec(s, acts).registry == map[];
  }

  /**
   * The only breach is that the keep-alive of a live lease does not start: the lookup carries
   * on, its node hosts the session, the lease expires, and another node comes to host it too.
   */
  lemma TwoHostsWithoutKeepAlive(sid: Sid)
    ensures exists s0, before, t, after :: OneBreach(s0, before, Fail(t), after, sid)
  {
    var s0 := Fresh(2, [0, 1]);
    var before := RunToKeepAlive(s0, sid);
    var s := Apply(Exec(s0, before), Fail(0));
    assert s.threads == [Thread(0, G(sid, 0, GMu(0))), Thread(1, Idle)];
    var after := RunWithoutKeepAlive(s, sid);
    after := RunToSecondHost(s, after, sid);
    assert OneBreach(s0, before, Fail(0), after, sid);
  }

  // ---- what failures leave behind ----

  /** A lookup whose Put fails returns with its lease kept alive and its handle stored. */
  lemma RunFailedPut(s0: State, sid: Sid) returns (acts: seq<Action>)
    requires s0 == Fresh(1, [0])
    ensures Typed(s0) && Runs(s0, acts)
    ensures var s := Exec(s0, acts);
            && s.threads == [Thread(0, Idle)] && |s.nodes| == 1 && s.nodes[0].mu.Free? && s.locks == map[]
            && s.registry == map[] && s.granted == [Owner(0, sid)] && s.kept == {0}
            && s.nodes[0].leases == map[sid := 0]
  {
    acts := RunToGrant(s0, [], 0, sid);
    acts := RunToKeep(s0, acts, 0, sid, 0);
    acts := RunToMu(s0, acts, 0, sid, 0, 0);
    acts := RunToPut(s0, acts, 0, sid, 0, 0);
    acts := Do(s0, acts, Fail(0));
    acts := RunToReturn(s0, acts, 0, sid, 0, Failed);
  }

  /** The next lookup of the session overwrites the only handle of a lease that is still kept alive. */
  lemma HandleOverwritten(sid: Sid)
    ensures exists s0, acts, l ::
              Init(s0) && Runs(s0, acts)
              && l in Exec(s0, acts).kept && Settled(Exec(s0, acts), l) && !Handled(Exec(s0, acts), l)
  {
    var s0 := Fresh(1, [0]);
    var acts := RunFailedPut(s0, sid);
    var l;
    acts, l := RunLookup(s0, acts, 0, sid);
    assert Init(s0) && Runs(s0, acts) && Settled(Exec(s0, acts), 0) && !Handled(Exec(s0, acts), 0);
  }

  /** A plain lookup that nobody follows up leaves a session registered and kept alive that no node has. */
  lemma RegisteredWithoutSession(sid: Sid)
    ensures exists s0, acts, l ::
              Init(s0) && Runs(s0, acts) && Plain(acts)
              && var s := Exec(s0, acts);
                 && sid in s.registry && s.registry[sid].lease == l && l in s.kept && Handled(s, l)
                 && s.objects == [] && Unjoined(s, 0, sid)
  {
    var s0 := Fresh(1, [0]);
    var acts, l := RunLookup(s0, [], 0, sid);
    assert Init(s0) && Runs(s0, acts) && l in Exec(s0, acts).kept && Handled(Exec(s0, acts), l);
  }

  /** The close of object `o` takes the mutex of its node and wants the etcd lock. */
  lemma RunToCloseLock(s0: State, acts: seq<Action>, t: Tid, o: ObjId) returns (acts': seq<Action>)
    requires Typed(s0) && Runs(s0, acts)
    requires var s := Exec(s0, acts);
             IdleThread(s, t) && s.nodes[s.threads[t].node].mu.Free?
             && o < |s.objects| && s.objects[o].status.Open? && s.objects[o].node == s.threads[t].node
    ensures Extends(s0, acts, acts')
    ensures var s, n := Exec(s0, acts), Exec(s0, acts).threads[t].node;
            Exec(s0, acts') == s.(threads := s.threads[t := Thread(n, C(s.objects[o].sid, o, CLock))],
                                  nodes := s.nodes[n := s.nodes[n].(mu := TakenBy(t))],
                                  objects := s.objects[o := s.objects[o].(status := Closing(t))])
  {
    var s := Exec(s0, acts);
    acts' := Do(s0, acts, Close(t, o));
    acts' := Do(s0, acts', Go(t));
    acts' := Do(s0, acts', Go(t));
    assert Exec(s0, acts').threads == s.threads[t := Thread(s.threads[t].node, C(s.objects[o].sid, o, CLock))];
    assert Exec(s0, acts').nodes == s.nodes[s.threads[t].node := s.nodes[s.threads[t].node].(mu := TakenBy(t))];
  }

  /** A close that cannot lock leaves its session in the map, where the gauge counts it although nobody hosts it. */
  lemma SessionLeftBehind(sid: Sid)
    ensures exists s0, acts ::
              Init(s0) && Runs(s0, acts)
              && var s := Exec(s0, acts);
                 Abandoned(s, 0, sid) && !Hosts(s, 0, sid) && s.nodes[0].mu.Free? && s.nodes[0].gauge == 1
  {
    var s0 := Fresh(1, [0]);
    var acts := RunGetSession(s0, [], 0, sid);
    acts := RunToCloseLock(s0, acts, 0, 0);
    acts := Do(s0, acts, Fail(0));
    acts := Do(s0, acts, Go(0));
    assert Init(s0) && Runs(s0, acts) && Abandoned(Exec(s0, acts), 0, sid);
  }

  // ---- opposite lock orders ----

  /** A lookup with the etcd lock and a close with the mutex, each wanting the other's. */
  lemma Deadlocked(s: State, sid: Sid)
    requires Typed(s) && |s.threads| == 2 && s.threads[0].node == s.threads[1].node == 0
    requires s.threads[0].pc.C? && s.threads[0].pc.c.CLock? && s.threads[0].pc.sid == sid
    requires s.threads[1].pc.G? && s.threads[1].pc.g.GMu? && s.threads[1].pc.sid == sid
    requires sid in s.locks && s.locks[sid] == Held(1) && s.nodes[0].mu == TakenBy(0)
    ensures WaitCycle(s, [0, 1])
    ensures forall t: Tid :: !Enabled(s, Go(t))
    ensures forall t: Tid :: Enabled(s, Fail(t)) <==> t == 0
  {
    assert Waits(s, 0, 1) && Waits(s, 1, 0);
  }

  lemma RunIntoDeadlock(s0: State, sid: Sid) returns (acts: seq<Action>)
    requires s0 == Fresh(1, [0, 0])
    ensures Typed(s0) && Runs(s0, acts)
    ensures var s := Exec(s0, acts);
            && |s.threads| == 2 && s.threads[0].node == s.threads[1].node == 0 && |s.nodes| == 1
            && s.threads[0].pc.C? && s.threads[0].pc.c.CLock? && s.threads[0].pc.sid == sid
            && s.threads[1].pc.G? && s.threads[1].pc.g.GMu? && s.threads[1].pc.sid == sid
            && sid in s.locks && s.locks[sid] == Held(1) && s.nodes[0].mu == TakenBy(0)
  {
    acts := RunGetSession(s0, [], 0, sid);
    acts := RunToGrant(s0, acts, 1, sid);
    acts := RunToKeep(s0, acts, 1, sid, 0);
    acts := RunToMu(s0, acts, 1, sid, 0, 0);
    acts := RunToCloseLock(s0, acts, 0, 0);
  }

  /**
   * Without timeouts the two lock orders can deadlock: a reachable state in which no
   * statement can succeed, and only the timeout of the waiting close gets things going.
   */
  lemma OnlyTheTimeoutHelps(sid: Sid)
    ensures exists s0, acts ::
              Init(s0) && Runs(s0, acts)
              && var s := Exec(s0, acts);
                 && WaitCycle(s, [0, 1])
                 && (forall t: Tid :: !Enabled(s, Go(t)))
                 && (forall t: Tid :: Enabled(s, Fail(t)) <==> t == 0)
  {
    var s0 := Fresh(1, [0, 0]);
    var acts := RunIntoDeadlock(s0, sid);
    Deadlocked(Exec(s0, acts), sid);
    assert Init(s0) && Runs(s0, acts);
  }

  // ---- a close and another node's entry ----

  /** Node 0 opens a session without a lookup, then node 1 registers it. */
  lemma RunForeignEntry(s0: State, sid: Sid) returns (acts: seq<Action>)
    requires s0 == Fresh(2, [0, 1])
    ensures Typed(s0) && Runs(s0, acts)
    ensures var s := Exec(s0, acts);
            && |s.threads| == 2 && s.threads[0] == Thread(0, Idle) && |s.nodes| == 2 && s.nodes[0].mu.Free?
            && s.objects == [Object(0, sid, Open)] && sid !in s.locks
            && sid in s.registry && s.registry[sid].meta.nodeId == 1
  {
    acts := RunGetSession(s0, [], 0, sid);
    var l;
    acts, l := RunLookup(s0, acts, 1, sid);
  }

  lemma RunToDelete(s0: State, acts: seq<Action>, t: Tid, sid: Sid) returns (acts': seq<Action>)
    requires Typed(s0) && Runs(s0, acts)
    requires var s := Exec(s0, acts);
             && Active(s, t) && s.threads[t].pc.C? && s.threads[t].pc.c.CLock? && s.threads[t].pc.sid == sid
             && sid !in s.locks
    ensures Runs(s0, acts')
    ensures var s, s' := Exec(s0, acts), Exec(s0, acts');
            && s'.registry == s.registry && |s'.threads| == |s.threads|
            && s'.threads[t].node == s.threads[t].node && s'.threads[t].pc == C(sid, s.threads[t].pc.obj, CDelete)
  {
    acts' := Do(s0, acts, Go(t));
    acts' := Do(s0, acts', Go(t));
  }

  /** A close deletes the entry of another node, when its session was created without a lookup. */
  lemma ForeignDelete(sid: Sid)
    ensures exists s0, acts ::
              Init(s0) && Runs(s0, acts)
              && var s := Exec(s0, acts);
                 && |s.threads| == 2 && s.threads[0].node == 0 && s.threads[0].pc.C?
                 && s.threads[0].pc.c.CDelete? && s.threads[0].pc.sid == sid
                 && sid in s.registry && s.registry[sid].meta.nodeId == 1
                 && Enabled(s, Go(0)) && sid !in Apply(s, Go(0)).registry
  {
    var s0 := Fresh(2, [0, 1]);
    var acts := RunForeignEntry(s0, sid);
    acts := RunToCloseLock(s0, acts, 0, 0);
    acts := RunToDelete(s0, acts, 0, sid);
    assert Init(s0) && Runs(s0, acts);
  }
}
