/**
 * The cluster as a transition system: many nodes, many threads on each, one etcd.
 *
 * A thread runs `getOrCreateSession` (G), `ensureSession` (E) or `onSessionClosed` (C), one
 * source statement at a time. Every etcd call can fail, every wait for an etcd lock can time
 * out, leases can expire, and a failed unlock leaves an orphaned lock behind.
 */
module EtcdProtocol {
  import opened SessionMeta

  type Tid = nat
  type Lease = nat
  type ObjId = nat

  /** A registry value: the stored meta and the lease it is attached to. */
  datatype Entry = Entry(meta: Meta, lease: Lease)

  /** Which node asked for a lease, and for which session. */
  datatype Owner = Owner(node: NodeId, sid: Sid)

  /** An etcd lock belongs to a thread, or to nobody until its etcd session runs out. */
  datatype Holder = Held(tid: Tid) | Orphaned

  /** `mu` names the thread holding the mutex of the node, if any. */
  datatype Mutex = Free | TakenBy(tid: Tid)

  /** The fields of one `etcdCoordinator`, and the session gauge of its process. */
  datatype Node = Node(
    endpoint: string,
    mu: Mutex,
    leases: map<Sid, Lease>,
    sessions: map<Sid, ObjId>,
    gauge: int)

  /** The life of a `Session` object; `Closed` once its close has been decided either way. */
  datatype Status = Open | Closing(tid: Tid) | Closed

  datatype Object = Object(node: NodeId, sid: Sid, status: Status)

  /** How a lookup ended; `at` is the place in the history where it took effect. */
  datatype Outcome = Failed | Got(meta: Meta, at: nat)

  datatype GStage =
    | GNew | GLock | GGet | GGrant | GKeep(lease: Lease) | GMu(lease: Lease) | GPut(lease: Lease)
    | GUnMu(out: Outcome) | GUnlock(out: Outcome) | GReturn(out: Outcome)

  datatype EStage = EMu | EInsert | EUnMu

  datatype CStage = CMu | CNew | CLock | CCancel | CDelete | CLocal | CGauge | CUnlock | CUnMu

  datatype Pc =
    | Idle
    | G(sid: Sid, call: nat, g: GStage)
    | E(sid: Sid, e: EStage)
    | C(sid: Sid, obj: ObjId, c: CStage)

  datatype Thread = Thread(node: NodeId, pc: Pc)

  /**
   * The history. A call is named by the position of its `Invoke`; `Take` marks the moment a
   * lookup takes effect, `Removed` a key leaving etcd, `Cancelled` a close giving up a lease.
   */
  datatype Event =
    | Invoke(node: NodeId, sid: Sid)
    | Take(call: nat, meta: Meta)
    | Return(call: nat, out: Outcome)
    | Removed(sid: Sid)
    | Cancelled(node: NodeId, sid: Sid)

  datatype State = State(
    registry: map<Sid, Entry>,
    locks: map<Sid, Holder>,
    granted: seq<Owner>,
    live: set<Lease>,
    kept: set<Lease>,
    nodes: seq<Node>,
    objects: seq<Object>,
    threads: seq<Thread>,
    log: seq<Event>)

  /**
   * `Go` is the next statement of a thread succeeding, `Fail` is it failing or timing out.
   */
  datatype Action =
    | Lookup(tid: Tid, sid: Sid)
    | GetSession(tid: Tid, sid: Sid)
    | Close(tid: Tid, obj: ObjId)
    | Go(tid: Tid)
    | Fail(tid: Tid)
    | Expire(lease: Lease)
    | OrphanExpires(sid: Sid)

  predicate HoldsLock(pc: Pc) {
    match pc
    case Idle => false
    case E(_, _) => false
    case G(_, _, g) => !g.GNew? && !g.GLock? && !g.GReturn?
    case C(_, _, c) => c.CCancel? || c.CDelete? || c.CLocal? || c.CGauge? || c.CUnlock?
  }

  predicate HoldsMu(pc: Pc) {
    match pc
    case Idle => false
    case E(_, e) => !e.EMu?
    case G(_, _, g) => g.GPut? || g.GUnMu?
    case C(_, _, c) => !c.CMu?
  }

  function SetPc(s: State, t: Tid, pc: Pc): State
    requires t < |s.threads|
  {
    s.(threads := s.threads[t := s.threads[t].(pc := pc)])
  }

  function SetNode(s: State, n: NodeId, node: Node): State
    requires n < |s.nodes|
  {
    s.(nodes := s.nodes[n := node])
  }

  function Log(s: State, e: Event): State {
    s.(log := s.log + [e])
  }

  function SetStatus(s: State, o: ObjId, status: Status): State
    requires o < |s.objects|
  {
    s.(objects := s.objects[o := s.objects[o].(status := status)])
  }

  /** Threads belong to nodes, and a close belongs to an object. */
  predicate Typed(s: State) {
    forall t: Tid | t < |s.threads| ::
      s.threads[t].node < |s.nodes|
      && (s.threads[t].pc.C? ==> s.threads[t].pc.obj < |s.objects|)
  }

  predicate Active(s: State, t: Tid) {
    t < |s.threads| && s.threads[t].node < |s.nodes| && !s.threads[t].pc.Idle?
  }

  // ---- getOrCreateSession ----

  predicate GCanGo(s: State, t: Tid)
    requires Active(s, t) && s.threads[t].pc.G?
  {
    var pc := s.threads[t].pc;
    match pc.g
    case GLock => pc.sid !in s.locks
    case GKeep(l) => l in s.live
    case GMu(_) => s.nodes[s.threads[t].node].mu.Free?
    case GPut(l) => l in s.live
    case _ => true
  }

  function GGo(s: State, t: Tid): State
    requires Active(s, t) && s.threads[t].pc.G?
  {
    var n := s.threads[t].node;
    var node := s.nodes[n];
    var pc := s.threads[t].pc;
    var sid, call := pc.sid, pc.call;
    match pc.g
    case GNew => SetPc(s, t, G(sid, call, GLock))
    case GLock => SetPc(s.(locks := s.locks[sid := Held(t)]), t, G(sid, call, GGet))
    case GGet =>
      if sid in s.registry then
        var m := Seen(s.registry[sid].meta, n);
        SetPc(Log(s, Take(call, m)), t, G(sid, call, GUnlock(Got(m, |s.log|))))
      else
        SetPc(s, t, G(sid, call, GGrant))
    case GGrant =>
      var l := |s.granted|;
      SetPc(s.(granted := s.granted + [Owner(n, sid)], live := s.live + {l}), t, G(sid, call, GKeep(l)))
    case GKeep(l) => SetPc(s.(kept := s.kept + {l}), t, G(sid, call, GMu(l)))
    case GMu(l) =>
      SetPc(SetNode(s, n, node.(mu := TakenBy(t), leases := node.leases[sid := l])),
            t, G(sid, call, GPut(l)))
    case GPut(l) =>
      var m := OwnMeta(sid, n, node.endpoint);
      SetPc(Log(s.(registry := s.registry[sid := Entry(m, l)]), Take(call, m)),
            t, G(sid, call, GUnMu(Got(m, |s.log|))))
    case GUnMu(out) => SetPc(SetNode(s, n, node.(mu := Free)), t, G(sid, call, GUnlock(out)))
    case GUnlock(out) => SetPc(s.(locks := s.locks - {sid}), t, G(sid, call, GReturn(out)))
    case GReturn(out) => SetPc(Log(s, Return(call, out)), t, Idle)
  }

  predicate GCanFail(g: GStage) {
    !g.GMu? && !g.GUnMu? && !g.GReturn?
  }

  function GFail(s: State, t: Tid): State
    requires Active(s, t) && s.threads[t].pc.G? && GCanFail(s.threads[t].pc.g)
  {
    var pc := s.threads[t].pc;
    var sid, call := pc.sid, pc.call;
    match pc.g
    case GNew => SetPc(s, t, G(sid, call, GReturn(Failed)))
    case GLock => SetPc(s, t, G(sid, call, GReturn(Failed)))
    case GGet => SetPc(s, t, G(sid, call, GUnlock(Failed)))
    case GGrant => SetPc(s, t, G(sid, call, GUnlock(Failed)))
    case GKeep(l) => SetPc(s, t, G(sid, call, GMu(l)))  // logged, and carried on
    case GPut(_) => SetPc(s, t, G(sid, call, GUnMu(Failed)))
    case GUnlock(out) => SetPc(s.(locks := s.locks[sid := Orphaned]), t, G(sid, call, GReturn(out)))
  }

  // ---- ensureSession ----

  predicate ECanGo(s: State, t: Tid)
    requires Active(s, t) && s.threads[t].pc.E?
  {
    s.threads[t].pc.e.EMu? ==> s.nodes[s.threads[t].node].mu.Free?
  }

  function EGo(s: State, t: Tid): State
    requires Active(s, t) && s.threads[t].pc.E?
  {
    var n := s.threads[t].node;
    var node := s.nodes[n];
    var sid := s.threads[t].pc.sid;
    match s.threads[t].pc.e
    case EMu =>
      if sid in node.sessions then
        SetPc(SetNode(s, n, node.(mu := TakenBy(t))), t, E(sid, EUnMu))
      else
        SetPc(SetNode(s, n, node.(mu := TakenBy(t), gauge := node.gauge + 1)), t, E(sid, EInsert))
    case EInsert =>
      SetPc(SetNode(s.(objects := s.objects + [Object(n, sid, Open)]),
                    n, node.(sessions := node.sessions[sid := |s.objects|])), t, E(sid, EUnMu))
    case EUnMu => SetPc(SetNode(s, n, node.(mu := Free)), t, Idle)
  }

  // ---- onSessionClosed ----

  predicate CCanGo(s: State, t: Tid)
    requires Active(s, t) && s.threads[t].pc.C?
  {
    match s.threads[t].pc.c
    case CMu => s.nodes[s.threads[t].node].mu.Free?
    case CLock => s.threads[t].pc.sid !in s.locks
    case _ => true
  }

  function CGo(s: State, t: Tid): State
    requires Active(s, t) && s.threads[t].pc.C? && s.threads[t].pc.obj < |s.objects|
  {
    var n := s.threads[t].node;
    var node := s.nodes[n];
    var C(sid, o, c) := s.threads[t].pc;
    match c
    case CMu => SetPc(SetNode(s, n, node.(mu := TakenBy(t))), t, C(sid, o, CNew))
    case CNew => SetPc(s, t, C(sid, o, CLock))
    case CLock => SetPc(s.(locks := s.locks[sid := Held(t)]), t, C(sid, o, CCancel))
    case CCancel =>
      var s1 := Log(s, Cancelled(n, sid));
      if sid in node.leases then
        SetPc(SetNode(s1.(kept := s.kept - {node.leases[sid]}), n, node.(leases := node.leases - {sid})),
              t, C(sid, o, CDelete))
      else
        SetPc(s1, t, C(sid, o, CDelete))
    case CDelete =>
      SetPc(Log(s.(registry := s.registry - {sid}), Removed(sid)), t, C(sid, o, CLocal))
    case CLocal =>
      SetPc(SetStatus(SetNode(s, n, node.(sessions := node.sessions - {sid})), o, Closed), t, C(sid, o, CGauge))
    case CGauge => SetPc(SetNode(s, n, node.(gauge := node.gauge - 1)), t, C(sid, o, CUnlock))
    case CUnlock => SetPc(s.(locks := s.locks - {sid}), t, C(sid, o, CUnMu))
    case CUnMu => SetPc(SetNode(s, n, node.(mu := Free)), t, Idle)
  }

  predicate CCanFail(c: CStage) {
    c.CNew? || c.CLock? || c.CDelete? || c.CUnlock?
  }

  function CFail(s: State, t: Tid): State
    requires Active(s, t) && s.threads[t].pc.C? && s.threads[t].pc.obj < |s.objects|
    requires CCanFail(s.threads[t].pc.c)
  {
    var C(sid, o, c) := s.threads[t].pc;
    match c
    case CNew => SetPc(SetStatus(s, o, Closed), t, C(sid, o, CUnMu))
    case CLock => SetPc(SetStatus(s, o, Closed), t, C(sid, o, CUnMu))
    case CDelete => SetPc(SetStatus(s, o, Closed), t, C(sid, o, CUnlock))
    case CUnlock => SetPc(s.(locks := s.locks[sid := Orphaned]), t, C(sid, o, CUnMu))
  }

  // ---- all actions ----

  predicate IdleThread(s: State, t: Tid) {
    t < |s.threads| && s.threads[t].node < |s.nodes| && s.threads[t].pc.Idle?
  }

  predicate Enabled(s: State, a: Action)
    requires Typed(s)
  {
    match a
    case Lookup(t, _) => IdleThread(s, t)
    case GetSession(t, _) => IdleThread(s, t)
    case Close(t, o) =>
      IdleThread(s, t) && o < |s.objects| && s.objects[o].status.Open? && s.objects[o].node == s.threads[t].node
    case Go(t) =>
      Active(s, t) && (match s.threads[t].pc
                       case G(_, _, _) => GCanGo(s, t)
                       case E(_, _) => ECanGo(s, t)
                       case C(_, _, _) => CCanGo(s, t))
    case Fail(t) =>
      Active(s, t) && (match s.threads[t].pc
                       case G(_, _, g) => GCanFail(g)
                       case E(_, _) => false
                       case C(_, _, c) => CCanFail(c))
    case Expire(l) => l in s.live
    case OrphanExpires(sid) => sid in s.locks && s.locks[sid].Orphaned?
  }

  /** The keys attached to lease `l` go with it. */
  function Without(registry: map<Sid, Entry>, l: Lease): map<Sid, Entry> {
    map k | k in registry && registry[k].lease != l :: registry[k]
  }

  function Apply(s: State, a: Action): State
    requires Typed(s) && Enabled(s, a)
  {
    match a
    case Lookup(t, sid) => SetPc(Log(s, Invoke(s.threads[t].node, sid)), t, G(sid, |s.log|, GNew))
    case GetSession(t, sid) => SetPc(s, t, E(sid, EMu))
    case Close(t, o) => SetPc(SetStatus(s, o, Closing(t)), t, C(s.objects[o].sid, o, CMu))
    case Go(t) =>
      if s.threads[t].pc.G? then GGo(s, t)
      else if s.threads[t].pc.E? then EGo(s, t)
      else CGo(s, t)
    case Fail(t) => if s.threads[t].pc.G? then GFail(s, t) else CFail(s, t)
    case Expire(l) =>
      var s1 := s.(live := s.live - {l}, kept := s.kept - {l}, registry := Without(s.registry, l));
      if l < |s.granted| && s.granted[l].sid in s.registry && s.registry[s.granted[l].sid].lease == l
      then Log(s1, Removed(s.granted[l].sid)) else s1
    case OrphanExpires(sid) => s.(locks := s.locks - {sid})
  }

  /** Nothing registered, nothing running; any number of nodes and threads. */
  predicate Init(s: State) {
    && s.registry == map[] && s.locks == map[] && s.granted == [] && s.live == {} && s.kept == {}
    && s.objects == [] && s.log == []
    && (forall n: NodeId | n < |s.nodes| ::
          s.nodes[n].mu.Free? && s.nodes[n].leases == map[] && s.nodes[n].sessions == map[] && s.nodes[n].gauge == 0)
    && (forall t: Tid | t < |s.threads| :: s.threads[t].node < |s.nodes| && s.threads[t].pc.Idle?)
  }

  /** A step of thread `t` leaves the other threads alone and forgets no node and no object. */
  ghost predicate StepOf(s: State, t: Tid, s': State)
    requires t < |s.threads|
  {
    && |s'.threads| == |s.threads|
    && s'.threads[t].node == s.threads[t].node
    && (s'.threads[t].pc.C? ==> s'.threads[t].pc.obj < |s.objects|)
    && (forall u: Tid | u < |s.threads| && u != t :: s'.threads[u] == s.threads[u])
    && |s'.nodes| == |s.nodes|
    && |s.objects| <= |s'.objects|
  }

  lemma GGoStepOf(s: State, t: Tid)
    requires Typed(s) && Active(s, t) && s.threads[t].pc.G?
    ensures StepOf(s, t, GGo(s, t))
  {}

  lemma GFailStepOf(s: State, t: Tid)
    requires Typed(s) && Active(s, t) && s.threads[t].pc.G? && GCanFail(s.threads[t].pc.g)
    ensures StepOf(s, t, GFail(s, t))
  {}

  lemma EStepOf(s: State, t: Tid)
    requires Typed(s) && Active(s, t) && s.threads[t].pc.E?
    ensures StepOf(s, t, EGo(s, t))
  {}

  lemma CGoStepOf(s: State, t: Tid)
    requires Typed(s) && Active(s, t) && s.threads[t].pc.C?
    ensures StepOf(s, t, CGo(s, t))
  {}

  lemma CFailStepOf(s: State, t: Tid)
    requires Typed(s) && Active(s, t) && s.threads[t].pc.C? && CCanFail(s.threads[t].pc.c)
    ensures StepOf(s, t, CFail(s, t))
  {}

  /** The thread an action belongs to, if any. */
  predicate ByThread(a: Action) {
    !a.Expire? && !a.OrphanExpires?
  }

  lemma ApplyStepOf(s: State, a: Action)
    requires Typed(s) && Enabled(s, a) && ByThread(a)
    ensures StepOf(s, a.tid, Apply(s, a))
  {
    match a
    case Go(t) =>
      match s.threads[t].pc {
        case G(_, _, _) => GGoStepOf(s, t);
        case E(_, _) => EStepOf(s, t);
        case C(_, _, _) => CGoStepOf(s, t);
      }
    case Fail(t) => if s.threads[t].pc.G? { GFailStepOf(s, t); } else { CFailStepOf(s, t); }
    case _ =>
  }

  lemma ApplyTyped(s: State, a: Action)
    requires Typed(s) && Enabled(s, a)
    ensures Typed(Apply(s, a))
    ensures |Apply(s, a).nodes| == |s.nodes| && |Apply(s, a).threads| == |s.threads|
  {
    if ByThread(a) {
      ApplyStepOf(s, a);
    }
  }

  /** `acts` can be performed from `s`, one after another. */
  ghost predicate Runs(s: State, acts: seq<Action>)
    requires Typed(s)
    decreases |acts|
  {
    acts == [] || (Enabled(s, acts[0]) && (ApplyTyped(s, acts[0]); Runs(Apply(s, acts[0]), acts[1..])))
  }

  ghost function Exec(s: State, acts: seq<Action>): (r: State)
    requires Typed(s) && Runs(s, acts)
    ensures Typed(r)
    decreases |acts|
  {
    if acts == [] then s else (ApplyTyped(s, acts[0]); Exec(Apply(s, acts[0]), acts[1..]))
  }
}
