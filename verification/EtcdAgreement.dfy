/** What callers may rely on: linearizable lookups, agreement on the owner, and one-hop routing. */
module EtcdAgreement {
  import opened SessionMeta
  import opened EtcdProtocol
  import opened EtcdEffects
  import opened EtcdLeases
  import opened EtcdHistory

  lemma {:induction false} HistoryOfRun(s: State, acts: seq<Action>)
    requires HistoryInv(s) && Runs(s, acts)
    ensures HistoryInv(Exec(s, acts))
    decreases |acts|
  {
    if acts != [] {
      HistoryKept(s, acts[0]);
      HistoryOfRun(Apply(s, acts[0]), acts[1..]);
    }
  }

  /**
   * Under every interleaving, with every failure and expiry: the history is that of an atomic
   * get-or-create on a map, the registry is that map, each returned answer took effect once
   * inside its call, and a failed call never did.
   */
  lemma LookupsLinearize(s0: State, acts: seq<Action>)
    requires Init(s0) && Runs(s0, acts)
    ensures var s := Exec(s0, acts);
            Linearizable(s.log, s.nodes) && Metas(s.registry) == Replay(s.log, s.nodes)
  {
    InitLeases(s0);
    HistoryOfRun(s0, acts);
  }

  /** The session the lookup at position `i` of the history was about. */
  function SidAt(log: seq<Event>, i: nat): Sid
    requires i < |log| && log[i].Take? && log[i].call < |log| && log[log[i].call].Invoke?
  {
    log[log[i].call].sid
  }

  ghost predicate NoRemoval(log: seq<Event>, i: nat, j: nat, sid: Sid) {
    forall k: nat | i < k < j && k < |log| :: log[k] != Removed(sid)
  }

  /** What the map holds for a key stays there until the key is removed. */
  lemma {:induction false} ReplayKeeps(log: seq<Event>, nodes: seq<Node>, i: nat, j: nat, sid: Sid)
    requires i < j <= |log| && NoRemoval(log, i, j, sid)
    requires sid in Replay(log[..i + 1], nodes)
    ensures sid in Replay(log[..j], nodes)
    ensures Replay(log[..j], nodes)[sid] == Replay(log[..i + 1], nodes)[sid]
    decreases j
  {
    if i + 1 < j {
      ReplayKeeps(log, nodes, i, j - 1, sid);
      assert log[..j] == log[..j - 1] + [log[j - 1]];
      ReplaySnoc(log[..j - 1], log[j - 1], nodes);
    }
  }

  /** Right after a lookup the map holds the owner that lookup answered. */
  lemma TakeStores(log: seq<Event>, nodes: seq<Node>, i: nat)
    requires Atomic(log, nodes) && i < |log| && log[i].Take?
    ensures Named(log[..i], log[i].call, nodes)
    ensures var sid := SidAt(log, i);
            sid in Replay(log[..i + 1], nodes)
            && Seen(Replay(log[..i + 1], nodes)[sid], log[log[i].call].node) == log[i].meta
  {
    assert log[..i + 1] == log[..i] + [log[i]];
    ReplaySnoc(log[..i], log[i], nodes);
  }

  lemma TakesAgree(log: seq<Event>, nodes: seq<Node>, i: nat, j: nat)
    requires Atomic(log, nodes) && i < j < |log| && log[i].Take? && log[j].Take?
    ensures Named(log, log[i].call, nodes) && Named(log, log[j].call, nodes)
    ensures SidAt(log, i) == SidAt(log, j) && NoRemoval(log, i, j, SidAt(log, i)) ==>
              log[i].meta.nodeId == log[j].meta.nodeId && log[i].meta.nodeEndpoint == log[j].meta.nodeEndpoint
    ensures forall k | k in {i, j} :: log[k].meta.redirect <==> log[k].meta.nodeId != log[log[k].call].node
  {
    TakeStores(log, nodes, i);
    TakeStores(log, nodes, j);
    assert Named(log[..i], log[i].call, nodes) && Named(log[..j], log[j].call, nodes);
    var sid := SidAt(log, i);
    if sid == SidAt(log, j) && NoRemoval(log, i, j, sid) {
      ReplayKeeps(log, nodes, i, j, sid);
    }
  }

  /**
   * Agreement over every run: two lookups of a session that take effect with no delete or
   * expiry of its key between them name the same owner and endpoint, wherever they were asked, and each is
   * told to redirect exactly when it was asked on another node than the owner.
   */
  lemma OwnersAgree(s0: State, acts: seq<Action>, i: nat, j: nat)
    requires Init(s0) && Runs(s0, acts)
    requires var log := Exec(s0, acts).log; i < j < |log| && log[i].Take? && log[j].Take?
    ensures var s := Exec(s0, acts);
            && Named(s.log, s.log[i].call, s.nodes) && Named(s.log, s.log[j].call, s.nodes)
            && (SidAt(s.log, i) == SidAt(s.log, j) && NoRemoval(s.log, i, j, SidAt(s.log, i)) ==>
                  && s.log[i].meta.nodeId == s.log[j].meta.nodeId
                  && s.log[i].meta.nodeEndpoint == s.log[j].meta.nodeEndpoint)
            && (s.log[i].meta.redirect <==> s.log[i].meta.nodeId != s.log[s.log[i].call].node)
            && (s.log[j].meta.redirect <==> s.log[j].meta.nodeId != s.log[s.log[j].call].node)
  {
    LookupsLinearize(s0, acts);
    var s := Exec(s0, acts);
    TakesAgree(s.log, s.nodes, i, j);
  }

  // ---- routing ----

  /** What a request for `sid` on node `n` is answered in state `s`, if nothing fails. */
  function AnswerOn(s: State, n: NodeId, sid: Sid): Meta
    requires n < |s.nodes|
  {
    if sid in s.registry then Seen(s.registry[sid].meta, n) else OwnMeta(sid, n, s.nodes[n].endpoint)
  }

  /** A lookup under way takes effect with just that answer. */
  lemma LookupAnswers(s: State, t: Tid)
    requires HistoryInv(s) && Enabled(s, Go(t)) && s.threads[t].pc.G?
    requires Apply(s, Go(t)).log != s.log && Apply(s, Go(t)).log[|s.log|].Take?
    ensures Apply(s, Go(t)).log[|s.log|] ==
            Take(s.threads[t].pc.call, AnswerOn(s, s.threads[t].node, s.threads[t].pc.sid))
  {
    ApplyEffect(s, Go(t));
  }

  predicate AtEndpoint(s: State, b: NodeId, endpoint: string) {
    b < |s.nodes| && s.nodes[b].endpoint == endpoint
  }

  /**
   * In every reachable registry a redirected request is sent on for the same session, to an
   * endpoint its owner has; every node there serves it, in one hop, exactly when no other
   * node shares the owner's endpoint.
   */
  lemma OneHop(s0: State, acts: seq<Action>, a: NodeId, sid: Sid)
    requires Init(s0) && Runs(s0, acts)
    requires var s := Exec(s0, acts); a < |s.nodes| && AnswerOn(s, a, sid).redirect
    ensures var s := Exec(s0, acts);
            var answer := AnswerOn(s, a, sid);
            && answer.sessionId == sid && answer.nodeId != a && AtEndpoint(s, answer.nodeId, answer.nodeEndpoint)
            && !AnswerOn(s, answer.nodeId, sid).redirect
            && ((forall b: NodeId | AtEndpoint(s, b, answer.nodeEndpoint) :: !AnswerOn(s, b, sid).redirect)
                <==> (forall b: NodeId | AtEndpoint(s, b, answer.nodeEndpoint) :: b == answer.nodeId))
  {
    KeptEntriesHaveHandles(s0, acts);
    var s := Exec(s0, acts);
    var answer := AnswerOn(s, a, sid);
    forall b: NodeId | AtEndpoint(s, b, answer.nodeEndpoint)
      ensures AnswerOn(s, b, sid).redirect <==> b != answer.nodeId
    {}
  }
}
