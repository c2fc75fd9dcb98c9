/** The coordinator of a single node, and the etcd coordinator measured against it. */
module LocalCoordinators {
  import opened SessionMeta
  import opened EtcdProtocol
  import opened EtcdSessions
  import opened EtcdCoordinators

  class LocalCoordinator {
    const nodeId: NodeId
    const nodeEndpoint: string
    var sessions: map<Sid, ObjId>
    var gauge: int
    var nextSession: ObjId
    ghost var objects: seq<Object>

    /** The map holds exactly the open sessions, and the gauge counts them. */
    ghost predicate Valid()
      reads this
    {
      && |objects| == nextSession && gauge == |sessions|
      && (forall sid | sid in sessions ::
            sessions[sid] < |objects| && objects[sessions[sid]] == Object(nodeId, sid, Open))
      && (forall o: ObjId | o < |objects| && objects[o].status.Open? ::
            objects[o].node == nodeId && objects[o].sid in sessions && sessions[objects[o].sid] == o)
    }

    constructor (nodeId: NodeId, nodeEndpoint: string)
      ensures Valid() && this.nodeId == nodeId && this.nodeEndpoint == nodeEndpoint && sessions == map[]
    {
      this.nodeId, this.nodeEndpoint := nodeId, nodeEndpoint;
      sessions, gauge, nextSession, objects := map[], 0, 0, [];
    }

    method EnsureSession(sid: Sid) returns (o: ObjId)
      requires Valid()
      modifies this
      ensures Valid() && sid in sessions && sessions[sid] == o
      ensures sessions == if sid in old(sessions) then old(sessions) else old(sessions)[sid := old(nextSession)]
      ensures old(objects) <= objects
    {
      if sid in sessions {
        return sessions[sid];
      }
      o := nextSession;
      gauge := gauge + 1;
      SizeWith(sessions, sid, o);
      sessions, nextSession := sessions[sid := o], nextSession + 1;
      objects := objects + [Object(nodeId, sid, Open)];
    }

    method GetOrCreateSession(sid: Sid) returns (meta: Meta)
      requires Valid()
      modifies this
      ensures Valid() && sessions.Keys == old(sessions.Keys) + {sid}
      ensures meta.sessionId == sid && meta.nodeId == nodeId && meta.nodeEndpoint == nodeEndpoint && !meta.redirect
    {
      var o := EnsureSession(sid);
      meta := OwnMeta(sid, nodeId, nodeEndpoint);
    }

    /** The callback of an open session, which fires once. */
    method OnSessionClosed(sid: Sid, o: ObjId)
      requires Valid() && o < |objects| && objects[o] == Object(nodeId, sid, Open)
      modifies this
      ensures Valid() && sessions == old(sessions) - {sid} && gauge == old(gauge) - 1
    {
      SizeWithout(sessions, sid);
      sessions := sessions - {sid};
      gauge := gauge - 1;
      objects := objects[o := objects[o].(status := Closed)];
    }
  }

  datatype Request = Lookup(sid: Sid) | Session(sid: Sid) | SessionCloses(sid: Sid)

  const NO_LOOKUP_FAULTS := LookupFaults(false, false, false, false, false, false, false)
  const NO_CLOSE_FAULTS := CloseFaults(false, false, false, false)

  /** What an etcd node looks like when it is alone and nothing has failed. */
  ghost predicate Unharmed(
    n: NodeId, endpoint: string, registry: map<Sid, Entry>,
    sessions: map<Sid, ObjId>, gauge: int, objects: seq<Object>)
  {
    && gauge == |sessions|
    && (forall sid | sid in registry :: registry[sid].meta == OwnMeta(sid, n, endpoint))
    && (forall sid | sid in sessions :: sessions[sid] < |objects| && objects[sessions[sid]] == Object(n, sid, Open))
  }

  ghost predicate Quiet(e: EtcdCoordinator)
    reads e, e.etcd
  {
    e.Valid() && e.etcd.locks == map[]
    && Unharmed(e.nodeId, e.nodeEndpoint, e.etcd.registry, e.localSessions, e.gauge, e.objects)
  }

  method QuietLookup(e: EtcdCoordinator, sid: Sid) returns (r: Answer)
    requires Quiet(e)
    modifies e`trail, e`world, e`mu, e`sessionLeases, e.etcd
    ensures Quiet(e) && r == Ok(OwnMeta(sid, e.nodeId, e.nodeEndpoint))
    ensures e.etcd.registry.Keys == old(e.etcd.registry.Keys) + {sid}
  {
    r := e.GetOrCreateSession(sid, NO_LOOKUP_FAULTS);
  }

  method QuietSession(e: EtcdCoordinator, sid: Sid)
    requires Quiet(e)
    modifies e
    ensures Quiet(e) && e.localSessions.Keys == old(e.localSessions.Keys) + {sid}
  {
    if sid !in e.localSessions {
      SizeWith(e.localSessions, sid, e.nextSession);
    }
    var o := e.EnsureSession(sid);
  }

  lemma UnharmedByClose(
    n: NodeId, endpoint: string, registry: map<Sid, Entry>, sessions: map<Sid, ObjId>, gauge: int,
    objects: seq<Object>, sid: Sid, objects': seq<Object>)
    requires Unharmed(n, endpoint, registry, sessions, gauge, objects) && sid in sessions
    requires EtcdCoordinator.SameBut(objects, sessions[sid], objects')
    ensures Unharmed(n, endpoint, registry - {sid}, sessions - {sid}, gauge - 1, objects')
  {
    SizeWithout(sessions, sid);
  }

  method QuietClose(e: EtcdCoordinator, sid: Sid)
    requires Quiet(e) && sid in e.localSessions
    modifies e, e.etcd
    ensures Quiet(e)
    ensures e.etcd.registry.Keys == old(e.etcd.registry.Keys) - {sid}
    ensures e.localSessions.Keys == old(e.localSessions.Keys) - {sid}
  {
    ghost var registry, sessions, gauge, objects := e.etcd.registry, e.localSessions, e.gauge, e.objects;
    e.OnSessionClosed(sid, e.localSessions[sid], NO_CLOSE_FAULTS);
    UnharmedByClose(e.nodeId, e.nodeEndpoint, registry, sessions, gauge, objects, sid, e.objects);
  }

  // ---- the same requests on both ----

  /** Keys of the local node, keys of the registry, and sessions clients of either have got hold of. */
  datatype Keys = Keys(local: set<Sid>, registered: set<Sid>, held: set<Sid>)

  /** A session nobody has got hold of does not close. */
  function AfterRequest(k: Keys, r: Request): Keys {
    match r
    case Lookup(sid) => k.(local := k.local + {sid}, registered := k.registered + {sid})
    case Session(sid) => k.(local := k.local + {sid}, held := k.held + {sid})
    case SessionCloses(sid) =>
      if sid in k.held then Keys(k.local - {sid}, k.registered - {sid}, k.held - {sid}) else k
  }

  function KeysAfter(requests: seq<Request>): Keys {
    if requests == [] then Keys({}, {}, {})
    else AfterRequest(KeysAfter(requests[..|requests| - 1]), requests[|requests| - 1])
  }

  /** The local session map is always the registry and the etcd node's sessions together. */
  lemma {:induction false} LocalKeysAreBoth(requests: seq<Request>)
    ensures KeysAfter(requests).local == KeysAfter(requests).registered + KeysAfter(requests).held
  {
    if requests != [] {
      LocalKeysAreBoth(requests[..|requests| - 1]);
    }
  }

  // ---- what the requests alone say ----

  /** The last request to get or to close the session was to get it. */
  ghost predicate InUse(requests: seq<Request>, sid: Sid) {
    exists i: nat :: i < |requests| && requests[i] == Session(sid) && NoClose(requests, i, sid)
  }

  ghost predicate NoClose(requests: seq<Request>, i: nat, sid: Sid) {
    forall j: nat | i < j < |requests| :: requests[j] != SessionCloses(sid)
  }

  /** Request `j` closes a session somebody holds. */
  ghost predicate Closes(requests: seq<Request>, j: nat, sid: Sid) {
    j < |requests| && requests[j] == SessionCloses(sid) && InUse(requests[..j], sid)
  }

  ghost predicate OpenSince(requests: seq<Request>, i: nat, sid: Sid) {
    forall j: nat | i < j < |requests| :: !Closes(requests, j, sid)
  }

  predicate Asks(q: Request, sid: Sid, also: bool) {
    q.sid == sid && (q.Lookup? || (also && q.Session?))
  }

  /** It was looked up, or gotten as well if `also`, and has not closed since. */
  ghost predicate AskedFor(requests: seq<Request>, sid: Sid, also: bool) {
    exists i: nat :: i < |requests| && Asks(requests[i], sid, also) && OpenSince(requests, i, sid)
  }

  lemma InUseSnoc(requests: seq<Request>, q: Request, sid: Sid)
    ensures InUse(requests + [q], sid) <==> q == Session(sid) || (InUse(requests, sid) && q != SessionCloses(sid))
  {
    var all := requests + [q];
    assert forall i: nat | i < |requests| :: all[i] == requests[i];
    assert all[|requests|] == q;
    if q == Session(sid) {
      assert NoClose(all, |requests|, sid);
    }
    if InUse(requests, sid) && q != SessionCloses(sid) {
      var i: nat :| i < |requests| && requests[i] == Session(sid) && NoClose(requests, i, sid);
      assert NoClose(all, i, sid);
    }
    if InUse(all, sid) && q != Session(sid) {
      var i: nat :| i < |all| && all[i] == Session(sid) && NoClose(all, i, sid);
      assert NoClose(requests, i, sid);
    }
  }

  lemma ClosesSnoc(requests: seq<Request>, q: Request, j: nat, sid: Sid)
    ensures Closes(requests + [q], j, sid) <==>
            if j < |requests| then Closes(requests, j, sid)
            else j == |requests| && q == SessionCloses(sid) && InUse(requests, sid)
  {
    if j <= |requests| {
      assert (requests + [q])[..j] == requests[..j];
      assert requests[..|requests|] == requests;
    }
  }

  lemma AskedForSnoc(requests: seq<Request>, q: Request, sid: Sid, also: bool)
    ensures AskedFor(requests + [q], sid, also) <==>
            Asks(q, sid, also)
            || (AskedFor(requests, sid, also) && !(q == SessionCloses(sid) && InUse(requests, sid)))
  {
    var all := requests + [q];
    assert forall i: nat | i < |requests| :: all[i] == requests[i];
    assert all[|requests|] == q;
    forall j: nat ensures Closes(all, j, sid) <==>
            if j < |requests| then Closes(requests, j, sid)
            else j == |requests| && q == SessionCloses(sid) && InUse(requests, sid)
    {
      ClosesSnoc(requests, q, j, sid);
    }
    if Asks(q, sid, also) {
      assert OpenSince(all, |requests|, sid);
    }
    if AskedFor(requests, sid, also) && !(q == SessionCloses(sid) && InUse(requests, sid)) {
      var i: nat :| i < |requests| && Asks(requests[i], sid, also) && OpenSince(requests, i, sid);
      assert OpenSince(all, i, sid);
    }
    if AskedFor(all, sid, also) {
      var i: nat :| i < |all| && Asks(all[i], sid, also) && OpenSince(all, i, sid);
      if i < |requests| {
        assert Asks(requests[i], sid, also) && OpenSince(requests, i, sid);
        assert |requests| < |all| && !Closes(all, |requests|, sid);
      }
    }
  }

  /**
   * For every sequence of requests: a session is held if it was gotten and not closed since,
   * registered if it was looked up and has not closed since, and in the local map if it was
   * looked up or gotten and has not closed since.
   */
  lemma {:induction false} KeysExactly(requests: seq<Request>, sid: Sid)
    ensures var k := KeysAfter(requests);
            && (sid in k.held <==> InUse(requests, sid))
            && (sid in k.registered <==> AskedFor(requests, sid, false))
            && (sid in k.local <==> AskedFor(requests, sid, true))
  {
    if requests != [] {
      var before, q := requests[..|requests| - 1], requests[|requests| - 1];
      KeysExactly(before, sid);
      assert requests == before + [q];
      InUseSnoc(before, q, sid);
      AskedForSnoc(before, q, sid, false);
      AskedForSnoc(before, q, sid, true);
    }
  }

  /** The sessions looked up, in order. */
  function LookedUp(requests: seq<Request>): seq<Sid> {
    if requests == [] then []
    else
      var q := requests[|requests| - 1];
      LookedUp(requests[..|requests| - 1]) + if q.Lookup? then [q.sid] else []
  }

  lemma {:induction false} AnswersExactly(n: NodeId, endpoint: string, requests: seq<Request>)
    ensures var answers := Answers(n, endpoint, requests);
            && |answers| == |LookedUp(requests)|
            && forall k: nat | k < |answers| :: answers[k] == Ok(Meta(LookedUp(requests)[k], n, endpoint, false))
  {
    if requests != [] {
      AnswersExactly(n, endpoint, requests[..|requests| - 1]);
    }
  }

  /** One answer per lookup: the node asked owns the session and serves it. */
  function AnswerTo(n: NodeId, endpoint: string, r: Request): seq<Answer> {
    if r.Lookup? then [Ok(OwnMeta(r.sid, n, endpoint))] else []
  }

  function Answers(n: NodeId, endpoint: string, requests: seq<Request>): seq<Answer> {
    if requests == [] then []
    else Answers(n, endpoint, requests[..|requests| - 1]) + AnswerTo(n, endpoint, requests[|requests| - 1])
  }

  lemma OneMore(n: NodeId, endpoint: string, requests: seq<Request>, k: nat)
    requires k < |requests|
    ensures KeysAfter(requests[..k + 1]) == AfterRequest(KeysAfter(requests[..k]), requests[k])
    ensures Answers(n, endpoint, requests[..k + 1]) ==
            Answers(n, endpoint, requests[..k]) + AnswerTo(n, endpoint, requests[k])
  {
    assert requests[..k + 1][..k] == requests[..k];
  }

  method ServeLocal(l: LocalCoordinator, r: Request, ghost k: Keys, held: set<Sid>)
    returns (answer: seq<Answer>, held': set<Sid>)
    requires l.Valid() && l.sessions.Keys == k.local && held == k.held && held <= k.local
    modifies l
    ensures l.Valid() && l.sessions.Keys == AfterRequest(k, r).local
    ensures held' == AfterRequest(k, r).held && held' <= l.sessions.Keys
    ensures answer == AnswerTo(l.nodeId, l.nodeEndpoint, r)
  {
    answer, held' := [], held;
    match r
    case Lookup(sid) =>
      var m := l.GetOrCreateSession(sid);
      answer := [Ok(m)];
    case Session(sid) =>
      var o := l.EnsureSession(sid);
      held' := held + {sid};
    case SessionCloses(sid) =>
      if sid in held {
        l.OnSessionClosed(sid, l.sessions[sid]);
        held' := held - {sid};
      }
  }

  method RunLocal(l: LocalCoordinator, requests: seq<Request>) returns (answers: seq<Answer>)
    requires l.Valid() && l.sessions == map[]
    modifies l
    ensures l.Valid() && l.sessions.Keys == KeysAfter(requests).local
    ensures answers == Answers(l.nodeId, l.nodeEndpoint, requests)
  {
    answers := [];
    var held: set<Sid> := {};
    for k := 0 to |requests|
      invariant l.Valid() && l.sessions.Keys == KeysAfter(requests[..k]).local
      invariant held == KeysAfter(requests[..k]).held && held <= l.sessions.Keys
      invariant answers == Answers(l.nodeId, l.nodeEndpoint, requests[..k])
    {
      OneMore(l.nodeId, l.nodeEndpoint, requests, k);
      var answer;
      answer, held := ServeLocal(l, requests[k], KeysAfter(requests[..k]), held);
      answers := answers + answer;
    }
    assert requests[..|requests|] == requests;
  }

  method ServeEtcd(e: EtcdCoordinator, r: Request, ghost k: Keys) returns (answer: seq<Answer>)
    requires Quiet(e) && e.etcd.registry.Keys == k.registered && e.localSessions.Keys == k.held
    modifies e, e.etcd
    ensures Quiet(e)
    ensures e.etcd.registry.Keys == AfterRequest(k, r).registered && e.localSessions.Keys == AfterRequest(k, r).held
    ensures answer == AnswerTo(e.nodeId, e.nodeEndpoint, r)
  {
    answer := [];
    match r
    case Lookup(sid) =>
      var a := QuietLookup(e, sid);
      answer := [a];
    case Session(sid) => QuietSession(e, sid);
    case SessionCloses(sid) =>
      if sid in e.localSessions {
        QuietClose(e, sid);
      }
  }

  method RunEtcd(e: EtcdCoordinator, requests: seq<Request>) returns (answers: seq<Answer>)
    requires Quiet(e) && e.localSessions == map[] && e.etcd.registry == map[]
    modifies e, e.etcd
    ensures Quiet(e)
    ensures e.etcd.registry.Keys == KeysAfter(requests).registered && e.localSessions.Keys == KeysAfter(requests).held
    ensures answers == Answers(e.nodeId, e.nodeEndpoint, requests)
  {
    answers := [];
    for k := 0 to |requests|
      invariant Quiet(e) && e.etcd.registry.Keys == KeysAfter(requests[..k]).registered
      invariant e.localSessions.Keys == KeysAfter(requests[..k]).held
      invariant answers == Answers(e.nodeId, e.nodeEndpoint, requests[..k])
    {
      OneMore(e.nodeId, e.nodeEndpoint, requests, k);
      var answer := ServeEtcd(e, requests[k], KeysAfter(requests[..k]));
      answers := answers + answer;
    }
    assert requests[..|requests|] == requests;
  }

  /**
   * With one node and no failures the etcd coordinator answers every sequence of requests as
   * the local one does, and the local session map is the registry and the etcd node's
   * sessions together.
   */
  method RunBoth(l: LocalCoordinator, e: EtcdCoordinator, requests: seq<Request>)
    returns (locals: seq<Answer>, etcds: seq<Answer>)
    requires l.Valid() && l.sessions == map[] && Quiet(e) && e.localSessions == map[] && e.etcd.registry == map[]
    requires l.nodeId == e.nodeId && l.nodeEndpoint == e.nodeEndpoint
    modifies l, e, e.etcd
    ensures locals == etcds && |locals| == |LookedUp(requests)|
    ensures forall k: nat | k < |locals| ::
              locals[k] == Ok(Meta(LookedUp(requests)[k], l.nodeId, l.nodeEndpoint, false))
    ensures l.sessions.Keys == e.etcd.registry.Keys + e.localSessions.Keys
    ensures forall sid :: sid in l.sessions <==> AskedFor(requests, sid, true)
    ensures forall sid :: sid in e.etcd.registry <==> AskedFor(requests, sid, false)
    ensures forall sid :: sid in e.localSessions <==> InUse(requests, sid)
  {
    locals := RunLocal(l, requests);
    etcds := RunEtcd(e, requests);
    LocalKeysAreBoth(requests);
    AnswersExactly(l.nodeId, l.nodeEndpoint, requests);
    forall sid
      ensures sid in l.sessions.Keys <==> AskedFor(requests, sid, true)
      ensures sid in e.etcd.registry.Keys <==> AskedFor(requests, sid, false)
      ensures sid in e.localSessions.Keys <==> InUse(requests, sid)
    {
      KeysExactly(requests, sid);
    }
  }
}
