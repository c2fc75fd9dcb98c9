/**
 * `getOrCreateSession` refines an atomic get-or-create on a map.
 *
 * The reference is `Replay`: a plain map changed by one atomic lookup per `Take` and one
 * removal per `Removed`. Every history of the cluster is a history of that map, and every
 * call that returns took effect once, between its invocation and its return, or not at all.
 */
module EtcdHistory {
  import opened SessionMeta
  import opened EtcdProtocol
  import opened EtcdEffects
  import opened EtcdLeases

  // ---- the atomic reference ----

  /** The map after one atomic get-or-create, for a caller that would store `own`. */
  function AfterLookup(reg: map<Sid, Meta>, own: Meta): map<Sid, Meta> {
    if own.sessionId in reg then reg else reg[own.sessionId := own]
  }

  /** The answer of one atomic get-or-create. */
  function LookupAnswer(reg: map<Sid, Meta>, own: Meta): Meta {
    Seen(if own.sessionId in reg then reg[own.sessionId] else own, own.nodeId)
  }

  /** A `Take` names an earlier invocation on a node of the cluster. */
  predicate Named(log: seq<Event>, c: nat, nodes: seq<Node>) {
    c < |log| && log[c].Invoke? && log[c].node < |nodes|
  }

  /** What the caller of invocation `c` stores if it finds nothing. */
  function Own(log: seq<Event>, c: nat, nodes: seq<Node>): Meta
    requires Named(log, c, nodes)
  {
    OwnMeta(log[c].sid, log[c].node, nodes[log[c].node].endpoint)
  }

  /** The reference map after one more event. */
  function AfterEvent(reg: map<Sid, Meta>, log: seq<Event>, e: Event, nodes: seq<Node>): map<Sid, Meta> {
    match e
    case Take(c, _) => if Named(log, c, nodes) then AfterLookup(reg, Own(log, c, nodes)) else reg
    case Removed(sid) => reg - {sid}
    case _ => reg
  }

  function Replay(log: seq<Event>, nodes: seq<Node>): map<Sid, Meta> {
    if log == [] then map[]
    else
      var before := log[..|log| - 1];
      AfterEvent(Replay(before, nodes), before, log[|log| - 1], nodes)
  }

  /** Every `Take` answers as the atomic reference does at that point. */
  ghost predicate Atomic(log: seq<Event>, nodes: seq<Node>) {
    forall j: nat | j < |log| && log[j].Take? ::
      Named(log[..j], log[j].call, nodes)
      && log[j].meta == LookupAnswer(Replay(log[..j], nodes), Own(log[..j], log[j].call, nodes))
  }

  ghost predicate TakesOnce(log: seq<Event>) {
    forall j: nat, k: nat | j < k < |log| && log[j].Take? && log[k].Take? :: log[j].call != log[k].call
  }

  ghost predicate NoTake(log: seq<Event>, c: nat) {
    forall j: nat | j < |log| && log[j].Take? :: log[j].call != c
  }

  /** A call that ended as `out` took effect between `c` and the end of `log`, or never. */
  ghost predicate EffectOf(log: seq<Event>, c: nat, out: Outcome) {
    match out
    case Failed => NoTake(log, c)
    case Got(m, at) => c < at < |log| && log[at] == Take(c, m)
  }

  ghost predicate ReturnsMatch(log: seq<Event>) {
    forall k: nat | k < |log| && log[k].Return? ::
      && log[k].call < k && log[log[k].call].Invoke?
      && EffectOf(log[..k], log[k].call, log[k].out)
      && (log[k].out.Failed? ==> NoTake(log, log[k].call))
  }

  ghost predicate NoReturn(log: seq<Event>, c: nat) {
    forall k: nat | k < |log| && log[k].Return? :: log[k].call != c
  }

  /** The history is one of the atomic reference, with each effect inside its own call. */
  ghost predicate Linearizable(log: seq<Event>, nodes: seq<Node>) {
    Atomic(log, nodes) && TakesOnce(log) && ReturnsMatch(log)
  }

  // ---- the calls under way ----

  function OutcomeOf(g: GStage): Outcome {
    if g.GUnMu? || g.GUnlock? || g.GReturn? then g.out else Failed
  }

  /** A running call is on record, has no return yet, and took effect if its outcome says so. */
  ghost predicate CallInv(s: State) {
    && (forall t: Tid | t < |s.threads| && s.threads[t].pc.G? ::
          var pc := s.threads[t].pc;
          pc.call < |s.log| && s.log[pc.call] == Invoke(s.threads[t].node, pc.sid)
          && EffectOf(s.log, pc.call, OutcomeOf(pc.g)) && NoReturn(s.log, pc.call))
    && (forall t: Tid, u: Tid | t < u < |s.threads| && s.threads[t].pc.G? && s.threads[u].pc.G? ::
          s.threads[t].pc.call != s.threads[u].pc.call)
  }

  /** The events of a history name invocations that came before them. */
  ghost predicate CallsPast(log: seq<Event>) {
    forall k: nat | k < |log| && (log[k].Take? || log[k].Return?) :: log[k].call < k
  }

  function Metas(registry: map<Sid, Entry>): map<Sid, Meta> {
    map sid | sid in registry :: registry[sid].meta
  }

  ghost predicate HistoryInv(s: State) {
    && LeaseInv(s) && CallInv(s) && CallsPast(s.log) && Linearizable(s.log, s.nodes)
    && Metas(s.registry) == Replay(s.log, s.nodes)
  }

  // ---- growing a history by one event ----

  lemma PrefixOfSnoc(log: seq<Event>, e: Event, k: nat)
    requires k <= |log|
    ensures (log + [e])[..k] == log[..k]
  {}

  lemma ReplaySnoc(log: seq<Event>, e: Event, nodes: seq<Node>)
    ensures Replay(log + [e], nodes) == AfterEvent(Replay(log, nodes), log, e, nodes)
  {
    assert (log + [e])[..|log|] == log;
  }

  lemma AtomicSnoc(log: seq<Event>, e: Event, nodes: seq<Node>)
    requires Atomic(log, nodes)
    requires e.Take? ==> Named(log, e.call, nodes)
                         && e.meta == LookupAnswer(Replay(log, nodes), Own(log, e.call, nodes))
    ensures Atomic(log + [e], nodes)
  {
    forall j: nat | j < |log + [e]| && (log + [e])[j].Take?
      ensures Named((log + [e])[..j], (log + [e])[j].call, nodes)
              && (log + [e])[j].meta ==
                 LookupAnswer(Replay((log + [e])[..j], nodes), Own((log + [e])[..j], (log + [e])[j].call, nodes))
    {
      PrefixOfSnoc(log, e, j);
      if j < |log| {
        assert log[j].Take?;
      } else {
        assert log[..j] == log;
      }
    }
  }

  /** Nothing in a history depends on the nodes but their endpoints, which never change. */
  lemma ReplayNodes(log: seq<Event>, nodes: seq<Node>, nodes': seq<Node>)
    requires |nodes| == |nodes'| && forall n: nat | n < |nodes| :: nodes[n].endpoint == nodes'[n].endpoint
    ensures Replay(log, nodes) == Replay(log, nodes')
  {}

  lemma AtomicNodes(log: seq<Event>, nodes: seq<Node>, nodes': seq<Node>)
    requires |nodes| == |nodes'| && forall n: nat | n < |nodes| :: nodes[n].endpoint == nodes'[n].endpoint
    requires Atomic(log, nodes)
    ensures Atomic(log, nodes')
  {
    forall j: nat | j < |log| && log[j].Take?
      ensures log[j].meta == LookupAnswer(Replay(log[..j], nodes'), Own(log[..j], log[j].call, nodes'))
    {
      ReplayNodes(log[..j], nodes, nodes');
    }
  }

  lemma TakesOnceSnoc(log: seq<Event>, e: Event)
    requires TakesOnce(log)
    requires e.Take? ==> NoTake(log, e.call)
    ensures TakesOnce(log + [e])
  {}

  lemma ReturnsMatchSnoc(log: seq<Event>, e: Event)
    requires ReturnsMatch(log)
    requires e.Take? ==> NoReturn(log, e.call)
    requires e.Return? ==> e.call < |log| && log[e.call].Invoke? && EffectOf(log, e.call, e.out)
    ensures ReturnsMatch(log + [e])
  {
    var log' := log + [e];
    forall k: nat | k < |log'| && log'[k].Return?
      ensures log'[k].call < k && log'[log'[k].call].Invoke?
              && EffectOf(log'[..k], log'[k].call, log'[k].out)
              && (log'[k].out.Failed? ==> NoTake(log', log'[k].call))
    {
      PrefixOfSnoc(log, e, k);
      if k < |log| {
        assert log[k].Return?;
      } else {
        assert log[..k] == log;
      }
    }
  }

  // ---- every step keeps the history linearizable ----

  /** The event a step records, if it records one. */
  ghost predicate Records(s: State, s': State, e: Event) {
    s'.log == s.log + [e]
  }

  lemma OtherCalls(s: State, t: Tid, s': State, e: Event)
    requires t < |s.threads| && StepOf(s, t, s') && CallInv(s) && Records(s, s', e)
    requires e.Take? || e.Return? ==> s.threads[t].pc.G? && e.call == s.threads[t].pc.call
    ensures forall u: Tid | u < |s.threads| && u != t && s.threads[u].pc.G? ::
              var pc := s.threads[u].pc;
              pc.call < |s.log| && s'.log[pc.call] == Invoke(s.threads[u].node, pc.sid)
              && EffectOf(s'.log, pc.call, OutcomeOf(pc.g)) && NoReturn(s'.log, pc.call)
  {}

  lemma CallInvStep(s: State, t: Tid, s': State)
    requires Typed(s) && t < |s.threads| && StepOf(s, t, s') && CallInv(s) && CallsPast(s.log)
    requires PcEffect(s.threads[t].pc, s'.threads[t].pc)
    requires |s.nodes| == |s'.nodes| && LogEffect(s, t, s')
    ensures CallInv(s') && CallsPast(s'.log)
  {
    if s'.log != s.log {
      var e := s'.log[|s.log|];
      OtherCalls(s, t, s', e);
    }
  }

  lemma MetasPut(reg: map<Sid, Entry>, sid: Sid, e: Entry)
    ensures Metas(reg[sid := e]) == Metas(reg)[sid := e.meta]
  {}

  lemma MetasRemove(reg: map<Sid, Entry>, sid: Sid)
    ensures Metas(reg - {sid}) == Metas(reg) - {sid}
  {}

  lemma ReplayStep(s: State, t: Tid, s': State)
    requires Typed(s) && t < |s.threads| && StepOf(s, t, s') && CallInv(s) && AbsentInv(s)
    requires Metas(s.registry) == Replay(s.log, s.nodes)
    requires PcEffect(s.threads[t].pc, s'.threads[t].pc)
    requires LogEffect(s, t, s') && RegistryEffect(s, t, s')
    ensures Metas(s'.registry) == Replay(s'.log, s.nodes)
  {
    if s'.log != s.log {
      ReplaySnoc(s.log, s'.log[|s.log|], s.nodes);
      var pc, pc' := s.threads[t].pc, s'.threads[t].pc;
      if Puts(pc, pc') {
        MetasPut(s.registry, pc.sid, s'.registry[pc.sid]);
      } else if Deletes(pc, pc') {
        MetasRemove(s.registry, pc.sid);
      }
    }
  }

  lemma LinearizableStep(s: State, t: Tid, s': State)
    requires Typed(s) && t < |s.threads| && StepOf(s, t, s') && HistoryInv(s)
    requires PcEffect(s.threads[t].pc, s'.threads[t].pc)
    requires LogEffect(s, t, s') && RegistryEffect(s, t, s')
    ensures Linearizable(s'.log, s.nodes)
  {
    if s'.log != s.log {
      var e := s'.log[|s.log|];
      AtomicSnoc(s.log, e, s.nodes);
      TakesOnceSnoc(s.log, e);
      ReturnsMatchSnoc(s.log, e);
    }
  }

  /** An expiring lease takes its one key with it, if that key is still there. */
  lemma ExpireRemoves(s: State, l: Lease)
    requires Typed(s) && EntryInv(s) && Enabled(s, Expire(l))
    ensures var s' := Apply(s, Expire(l));
            if s'.log == s.log then s'.registry == s.registry
            else exists sid :: s'.log == s.log + [Removed(sid)] && s'.registry == s.registry - {sid}
  {
    var s' := Apply(s, Expire(l));
    if s'.log == s.log {
      assert Without(s.registry, l) == s.registry;
    } else {
      var sid := s.granted[l].sid;
      assert Without(s.registry, l) == s.registry - {sid};
      assert s'.log == s.log + [Removed(sid)];
    }
  }

  lemma RemovedHistory(s: State, s': State, sid: Sid)
    requires CallInv(s) && CallsPast(s.log) && Linearizable(s.log, s.nodes)
    requires Metas(s.registry) == Replay(s.log, s.nodes)
    requires s'.log == s.log + [Removed(sid)] && s'.registry == s.registry - {sid} && s'.threads == s.threads
    ensures CallInv(s') && CallsPast(s'.log) && Linearizable(s'.log, s.nodes)
    ensures Metas(s'.registry) == Replay(s'.log, s.nodes)
  {
    ReplaySnoc(s.log, Removed(sid), s.nodes);
    AtomicSnoc(s.log, Removed(sid), s.nodes);
    TakesOnceSnoc(s.log, Removed(sid));
    ReturnsMatchSnoc(s.log, Removed(sid));
    MetasRemove(s.registry, sid);
  }

  lemma HistoryInvStep(s: State, t: Tid, s': State)
    requires HistoryInv(s) && LeaseInv(s') && t < |s.threads| && Effect(s, t, s')
    ensures HistoryInv(s')
  {
    CallInvStep(s, t, s');
    ReplayStep(s, t, s');
    LinearizableStep(s, t, s');
    ReplayNodes(s'.log, s.nodes, s'.nodes);
    AtomicNodes(s'.log, s.nodes, s'.nodes);
  }

  lemma HistoryKept(s: State, a: Action)
    requires HistoryInv(s) && Enabled(s, a)
    ensures HistoryInv(Apply(s, a))
  {
    LeasesKept(s, a);
    var s' := Apply(s, a);
    if ByThread(a) {
      ApplyEffect(s, a);
      HistoryInvStep(s, a.tid, s');
    } else if a.Expire? {
      ExpireRemoves(s, a.lease);
      if s'.log != s.log {
        var sid :| s'.log == s.log + [Removed(sid)] && s'.registry == s.registry - {sid};
        RemovedHistory(s, s', sid);
      }
    }
  }
}
