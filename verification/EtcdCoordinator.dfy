/**
 * The etcd coordinator as an object. Its methods follow the source statement by statement,
 * with the outcome of each etcd call as a parameter, and each is shown to be a run of one
 * thread of the transition system, from idle to idle.
 */
module EtcdCoordinators {
  import opened SessionMeta
  import opened EtcdProtocol
  import opened EtcdRuns

  datatype Answer = Ok(meta: Meta) | Error

  /** Which etcd calls of a lookup fail. */
  datatype LookupFaults = LookupFaults(
    newSession: bool, lock: bool, get: bool, grant: bool, keepAlive: bool, put: bool, unlock: bool)

  /** Which etcd calls of a close fail. */
  datatype CloseFaults = CloseFaults(newSession: bool, lock: bool, delete: bool, unlock: bool)

  /** What the method returns is what the transition system records. */
  predicate Matches(r: Answer, out: Outcome) {
    match r case Ok(m) => out.Got? && out.meta == m case Error => out.Failed?
  }

  /** The etcd server. */
  class Etcd {
    var registry: map<Sid, Entry>
    var locks: map<Sid, Holder>
    var granted: seq<Owner>
    var live: set<Lease>
    var kept: set<Lease>
  }

  class EtcdCoordinator {
    const nodeId: NodeId
    const nodeEndpoint: string
    const thread: Tid
    const etcd: Etcd
    var mu: Mutex
    var sessionLeases: map<Sid, Lease>
    var localSessions: map<Sid, ObjId>
    var gauge: int
    var nextSession: ObjId

    // the run of the transition system so far
    ghost var start: State
    ghost var trail: seq<Action>
    ghost var world: State
    ghost var objects: seq<Object>

    ghost predicate Traced()
      reads this
    {
      Typed(start) && Runs(start, trail) && world == Exec(start, trail)
    }

    /** The fields are what the transition system says they are. */
    ghost predicate Tracks()
      reads this, etcd
    {
      && thread < |world.threads| && world.threads[thread].node == nodeId && nodeId < |world.nodes|
      && world.nodes[nodeId] == Node(nodeEndpoint, mu, sessionLeases, localSessions, gauge)
      && world.registry == etcd.registry && world.locks == etcd.locks && world.granted == etcd.granted
      && world.live == etcd.live && world.kept == etcd.kept
      && world.objects == objects && |objects| == nextSession
    }

    /** The thread of this call is at `pc`. */
    ghost predicate At(pc: Pc)
      reads this, etcd
    {
      Traced() && Tracks() && world.threads[thread].pc == pc
    }

    ghost predicate Valid()
      reads this, etcd
    {
      At(Idle) && mu.Free?
    }

    /** A node of a cluster in which nothing has happened yet. */
    constructor (etcd: Etcd, nodeId: NodeId, nodeEndpoint: string, thread: Tid, ghost cluster: State)
      requires Init(cluster) && thread < |cluster.threads| && cluster.threads[thread].node == nodeId
      requires cluster.nodes[nodeId].endpoint == nodeEndpoint
      modifies etcd
      ensures Valid() && start == cluster && trail == []
      ensures this.etcd == etcd && this.nodeId == nodeId && this.nodeEndpoint == nodeEndpoint
      ensures localSessions == map[] && gauge == 0 && objects == [] && etcd.registry == map[] && etcd.locks == map[]
    {
      this.etcd, this.nodeId, this.nodeEndpoint, this.thread := etcd, nodeId, nodeEndpoint, thread;
      mu, sessionLeases, localSessions, gauge, nextSession := Free, map[], map[], 0, 0;
      start, trail, world, objects := cluster, [], cluster, [];
      new;
      etcd.registry, etcd.locks, etcd.granted, etcd.live, etcd.kept := map[], map[], [], {}, {};
    }

    ghost method Tick(a: Action)
      requires Traced() && Enabled(world, a)
      modifies this`trail, this`world
      ensures Traced() && world == Apply(old(world), a) && trail == old(trail) + [a]
    {
      Extend(start, trail, a);
      ApplyTyped(world, a);
      trail := trail + [a];
      world := Apply(world, a);
    }

    /** A statement that changes no field. */
    ghost method Pass(a: Action, pc: Pc)
      requires Traced() && Tracks() && Enabled(world, a) && ByThread(a) && a.tid == thread
      requires Apply(world, a).threads[thread] == Thread(nodeId, pc)
      requires Apply(world, a).nodes == world.nodes && Apply(world, a).locks == world.locks
      requires Apply(world, a).registry == world.registry && Apply(world, a).granted == world.granted
      requires Apply(world, a).live == world.live && Apply(world, a).kept == world.kept
      requires Apply(world, a).objects == world.objects
      modifies this`trail, this`world
      ensures At(pc) && old(trail) < trail && world.log == Apply(old(world), a).log
    {
      ApplyTyped(world, a);
      Tick(a);
    }

    static lemma Unlocked(locks: map<Sid, Holder>, sid: Sid, h: Holder)
      requires sid !in locks
      ensures locks[sid := h] - {sid} == locks && locks[sid := h][sid := Orphaned] == locks[sid := Orphaned]
    {
    }

    // ---- getOrCreateSession ----

    /** The answer once the registry could be read: the entry found, or this node if it could store one. */
    function AnswerUnlocked(registry: map<Sid, Entry>, sid: Sid, f: LookupFaults): Answer {
      if sid in registry then Ok(Seen(registry[sid].meta, nodeId))
      else if f.grant || f.put then Error
      else Ok(OwnMeta(sid, nodeId, nodeEndpoint))
    }

    /** The registry changes only for a session that was absent and is now answered. */
    static ghost predicate Stored(registry: map<Sid, Entry>, sid: Sid, r: Answer, registry': map<Sid, Entry>) {
      if r.Error? || sid in registry then registry' == registry
      else exists lease :: registry' == registry[sid := Entry(r.meta, lease)]
    }

    method BeginLookup(sid: Sid, fails: bool)
      requires At(Idle)
      modifies this`trail, this`world
      ensures At(G(sid, |old(world.log)|, if fails then GReturn(Failed) else GLock)) && old(trail) < trail
    {
      ghost var call := |world.log|;
      Pass(Lookup(thread, sid), G(sid, call, GNew));
      Pass(if fails then Fail(thread) else Go(thread), G(sid, call, if fails then GReturn(Failed) else GLock));
    }

    /** Locking fails, times out against another holder, or succeeds. */
    method LookupLock(ghost call: nat, sid: Sid, fails: bool) returns (ok: bool)
      requires At(G(sid, call, GLock))
      modifies this`trail, this`world, etcd`locks
      ensures At(G(sid, call, if ok then GGet else GReturn(Failed))) && old(trail) < trail
      ensures ok == (!fails && sid !in old(etcd.locks))
      ensures etcd.locks == if ok then old(etcd.locks)[sid := Held(thread)] else old(etcd.locks)
    {
      ok := !fails && sid !in etcd.locks;
      if ok {
        etcd.locks := etcd.locks[sid := Held(thread)];
        Tick(Go(thread));
      } else {
        Pass(Fail(thread), G(sid, call, GReturn(Failed)));
      }
    }

    /** Lines 62 to 79: up to the etcd lock. */
    method LookupEnter(sid: Sid, f: LookupFaults) returns (ok: bool)
      requires At(Idle)
      modifies this`trail, this`world, etcd`locks
      ensures At(G(sid, |old(world.log)|, if ok then GGet else GReturn(Failed))) && old(trail) < trail
      ensures ok == !(f.newSession || f.lock || sid in old(etcd.locks))
      ensures etcd.locks == if ok then old(etcd.locks)[sid := Held(thread)] else old(etcd.locks)
    {
      ghost var call := |world.log|;
      BeginLookup(sid, f.newSession);
      ok := false;
      if !f.newSession {
        ok := LookupLock(call, sid, f.lock);
      }
    }

    /** The Get: an error, the meta found, or nothing. */
    method LookupGet(ghost call: nat, sid: Sid, fails: bool) returns (r: Answer, absent: bool, ghost out: Outcome)
      requires At(G(sid, call, GGet))
      modifies this`trail, this`world
      ensures At(G(sid, call, if absent then GGrant else GUnlock(out))) && old(trail) < trail
      ensures absent == (!fails && sid !in etcd.registry)
      ensures !absent && !fails ==> r == Ok(Seen(etcd.registry[sid].meta, nodeId))
      ensures fails ==> r == Error
      ensures !absent ==> Matches(r, out)
    {
      absent, r, out := !fails && sid !in etcd.registry, Error, Failed;
      if fails {
        Pass(Fail(thread), G(sid, call, GUnlock(Failed)));
      } else if absent {
        Pass(Go(thread), G(sid, call, GGrant));
      } else {
        r := Ok(Seen(etcd.registry[sid].meta, nodeId));
        out := Got(r.meta, |world.log|);
        Pass(Go(thread), G(sid, call, GUnlock(out)));
      }
    }

    method LookupGrant(ghost call: nat, sid: Sid, fails: bool) returns (lease: Lease)
      requires At(G(sid, call, GGrant))
      modifies this`trail, this`world, etcd`granted, etcd`live
      ensures At(G(sid, call, if fails then GUnlock(Failed) else GKeep(lease))) && old(trail) < trail
      ensures !fails ==> lease in etcd.live
    {
      lease := |etcd.granted|;
      if fails {
        Pass(Fail(thread), G(sid, call, GUnlock(Failed)));
        return;
      }
      etcd.granted, etcd.live := etcd.granted + [Owner(nodeId, sid)], etcd.live + {lease};
      Tick(Go(thread));
    }

    /** A failed KeepAlive is logged and the lookup carries on. */
    method LookupKeepAlive(ghost call: nat, sid: Sid, lease: Lease, fails: bool)
      requires At(G(sid, call, GKeep(lease))) && lease in etcd.live
      modifies this`trail, this`world, etcd`kept
      ensures At(G(sid, call, GMu(lease))) && old(trail) < trail
      ensures etcd.kept == if fails then old(etcd.kept) else old(etcd.kept) + {lease}
    {
      if fails {
        Pass(Fail(thread), G(sid, call, GMu(lease)));
      } else {
        etcd.kept := etcd.kept + {lease};
        Tick(Go(thread));
      }
    }

    method LookupTakeMu(ghost call: nat, sid: Sid, lease: Lease)
      requires At(G(sid, call, GMu(lease))) && mu.Free?
      modifies this`trail, this`world, this`mu, this`sessionLeases
      ensures At(G(sid, call, GPut(lease))) && old(trail) < trail
      ensures sessionLeases == old(sessionLeases)[sid := lease]
    {
      mu, sessionLeases := TakenBy(thread), sessionLeases[sid := lease];
      Tick(Go(thread));
    }

    method LookupPut(ghost call: nat, sid: Sid, lease: Lease, fails: bool) returns (r: Answer, ghost out: Outcome)
      requires At(G(sid, call, GPut(lease))) && lease in etcd.live
      modifies this`trail, this`world, etcd`registry
      ensures At(G(sid, call, GUnMu(out))) && old(trail) < trail && Matches(r, out)
      ensures r == if fails then Error else Ok(OwnMeta(sid, nodeId, nodeEndpoint))
      ensures etcd.registry == if fails then old(etcd.registry) else old(etcd.registry)[sid := Entry(r.meta, lease)]
    {
      if fails {
        r, out := Error, Failed;
        Pass(Fail(thread), G(sid, call, GUnMu(Failed)));
      } else {
        r := Ok(OwnMeta(sid, nodeId, nodeEndpoint));
        out := Got(r.meta, |world.log|);
        etcd.registry := etcd.registry[sid := Entry(r.meta, lease)];
        Tick(Go(thread));
      }
    }

    method LookupReleaseMu(ghost call: nat, sid: Sid, ghost out: Outcome)
      requires At(G(sid, call, GUnMu(out)))
      modifies this`trail, this`world, this`mu
      ensures At(G(sid, call, GUnlock(out))) && old(trail) < trail && mu.Free?
    {
      mu := Free;
      Tick(Go(thread));
    }

    /** The deferred unlock; when it fails the lock is left to expire. */
    method LookupUnlock(ghost call: nat, sid: Sid, ghost out: Outcome, fails: bool)
      requires At(G(sid, call, GUnlock(out)))
      modifies this`trail, this`world, etcd`locks
      ensures At(G(sid, call, GReturn(out))) && old(trail) < trail
      ensures etcd.locks == if fails then old(etcd.locks)[sid := Orphaned] else old(etcd.locks) - {sid}
    {
      etcd.locks := if fails then etcd.locks[sid := Orphaned] else etcd.locks - {sid};
      Tick(if fails then Fail(thread) else Go(thread));
    }

    method LookupReturn(ghost call: nat, sid: Sid, ghost out: Outcome)
      requires At(G(sid, call, GReturn(out)))
      modifies this`trail, this`world
      ensures At(Idle) && old(trail) < trail && world.log == old(world.log) + [Return(call, out)]
    {
      Pass(Go(thread), Idle);
    }

    /** Lines 121 to 135: store the handle and the meta, under the mutex. */
    method Store(ghost call: nat, sid: Sid, lease: Lease, fails: bool) returns (r: Answer, ghost out: Outcome)
      requires At(G(sid, call, GMu(lease))) && mu.Free? && lease in etcd.live
      modifies this`trail, this`world, this`mu, this`sessionLeases, etcd`registry
      ensures At(G(sid, call, GUnlock(out))) && old(trail) < trail && mu.Free? && Matches(r, out)
      ensures sessionLeases == old(sessionLeases)[sid := lease]
      ensures r == if fails then Error else Ok(OwnMeta(sid, nodeId, nodeEndpoint))
      ensures etcd.registry == if fails then old(etcd.registry) else old(etcd.registry)[sid := Entry(r.meta, lease)]
    {
      LookupTakeMu(call, sid, lease);
      r, out := LookupPut(call, sid, lease, fails);
      LookupReleaseMu(call, sid, out);
    }

    /** Lines 104 to 138: the session does not exist, take it. */
    method Create(ghost call: nat, sid: Sid, f: LookupFaults) returns (r: Answer, ghost out: Outcome)
      requires At(G(sid, call, GGrant)) && mu.Free?
      modifies this`trail, this`world, this`mu, this`sessionLeases
      modifies etcd`registry, etcd`granted, etcd`live, etcd`kept
      ensures At(G(sid, call, GUnlock(out))) && old(trail) < trail && mu.Free? && Matches(r, out)
      ensures r == if f.grant || f.put then Error else Ok(OwnMeta(sid, nodeId, nodeEndpoint))
      ensures r.Error? ==> etcd.registry == old(etcd.registry)
      ensures r.Ok? ==> exists lease :: etcd.registry == old(etcd.registry)[sid := Entry(r.meta, lease)]
                                        && (!f.keepAlive ==> lease in etcd.kept)
    {
      var lease := LookupGrant(call, sid, f.grant);
      if f.grant {
        return Error, Failed;
      }
      LookupKeepAlive(call, sid, lease, f.keepAlive);
      r, out := Store(call, sid, lease, f.put);
    }

    /** Lines 81 to 138, with the etcd lock held. */
    method LookUnderLock(ghost call: nat, sid: Sid, f: LookupFaults) returns (r: Answer, ghost out: Outcome)
      requires At(G(sid, call, GGet)) && mu.Free?
      modifies this`trail, this`world, this`mu, this`sessionLeases
      modifies etcd`registry, etcd`granted, etcd`live, etcd`kept
      ensures At(G(sid, call, GUnlock(out))) && old(trail) < trail && mu.Free? && Matches(r, out)
      ensures r == if f.get then Error else AnswerUnlocked(old(etcd.registry), sid, f)
      ensures Stored(old(etcd.registry), sid, r, etcd.registry)
    {
      var absent;
      r, absent, out := LookupGet(call, sid, f.get);
      if absent {
        r, out := Create(call, sid, f);
      }
    }

    /** The same with the deferred unlock. */
    method LookAndUnlock(ghost call: nat, sid: Sid, f: LookupFaults) returns (r: Answer, ghost out: Outcome)
      requires At(G(sid, call, GGet)) && mu.Free?
      modifies this`trail, this`world, this`mu, this`sessionLeases, etcd
      ensures At(G(sid, call, GReturn(out))) && old(trail) < trail && mu.Free? && Matches(r, out)
      ensures r == if f.get then Error else AnswerUnlocked(old(etcd.registry), sid, f)
      ensures Stored(old(etcd.registry), sid, r, etcd.registry)
      ensures etcd.locks == if f.unlock then old(etcd.locks)[sid := Orphaned] else old(etcd.locks) - {sid}
    {
      r, out := LookUnderLock(call, sid, f);
      LookupUnlock(call, sid, out, f.unlock);
    }

    method GetOrCreateSession(sid: Sid, f: LookupFaults) returns (r: Answer)
      requires Valid()
      modifies this`trail, this`world, this`mu, this`sessionLeases, etcd
      ensures Valid() && old(trail) < trail
      ensures world.log != [] && var last := world.log[|world.log| - 1];
              last.Return? && last.call == |old(world.log)| && Matches(r, last.out)
      ensures r == if f.newSession || f.lock || sid in old(etcd.locks) || f.get then Error
                   else AnswerUnlocked(old(etcd.registry), sid, f)
      ensures Stored(old(etcd.registry), sid, r, etcd.registry)
      ensures etcd.locks == if !(f.newSession || f.lock || sid in old(etcd.locks)) && f.unlock
                            then old(etcd.locks)[sid := Orphaned] else old(etcd.locks)
    {
      ghost var call := |world.log|;
      ghost var locks := etcd.locks;
      var ok := LookupEnter(sid, f);
      r := Error;
      ghost var out := Failed;
      if ok {
        r, out := LookAndUnlock(call, sid, f);
        Unlocked(locks, sid, Held(thread));
      }
      LookupReturn(call, sid, out);
    }

    // ---- ensureSession ----

    method EnsureSession(sid: Sid) returns (o: ObjId)
      requires Valid()
      modifies this`trail, this`world, this`mu, this`localSessions, this`gauge, this`nextSession, this`objects
      ensures Valid() && old(trail) < trail
      ensures sid in old(localSessions) ==>
                o == old(localSessions)[sid] && localSessions == old(localSessions) && gauge == old(gauge)
                && objects == old(objects)
      ensures sid !in old(localSessions) ==>
                o == old(nextSession) && localSessions == old(localSessions)[sid := o] && gauge == old(gauge) + 1
                && objects == old(objects) + [Object(nodeId, sid, Open)]
    {
      var found := EnsureTakeMu(sid);
      if found {
        o := localSessions[sid];
      } else {
        o := nextSession;
        EnsureInsert(sid);
      }
      EnsureReleaseMu(sid);
    }

    method EnsureTakeMu(sid: Sid) returns (found: bool)
      requires Valid()
      modifies this`trail, this`world, this`mu, this`gauge
      ensures At(E(sid, if found then EUnMu else EInsert)) && old(trail) < trail
      ensures found == (sid in localSessions) && gauge == old(gauge) + (if found then 0 else 1)
    {
      Pass(GetSession(thread, sid), E(sid, EMu));
      found := sid in localSessions;
      mu := TakenBy(thread);
      if !found {
        gauge := gauge + 1;
      }
      Tick(Go(thread));
    }

    method EnsureInsert(sid: Sid)
      requires At(E(sid, EInsert))
      modifies this`trail, this`world, this`localSessions, this`nextSession, this`objects
      ensures At(E(sid, EUnMu)) && old(trail) < trail
      ensures localSessions == old(localSessions)[sid := old(nextSession)]
      ensures objects == old(objects) + [Object(nodeId, sid, Open)]
    {
      localSessions, nextSession := localSessions[sid := nextSession], nextSession + 1;
      objects := objects + [Object(nodeId, sid, Open)];
      Tick(Go(thread));
    }

    method EnsureReleaseMu(sid: Sid)
      requires At(E(sid, EUnMu))
      modifies this`trail, this`world, this`mu
      ensures Valid() && old(trail) < trail
    {
      mu := Free;
      Tick(Go(thread));
    }

    // ---- onSessionClosed ----

    /** The session `o` has a new status. */
    ghost method Mark(o: ObjId, status: Status)
      requires o < |objects|
      modifies this`objects
      ensures objects == old(objects)[o := old(objects)[o].(status := status)]
    {
      objects := objects[o := objects[o].(status := status)];
    }

    /** Only session `o` may have changed. */
    static ghost predicate SameBut(objects: seq<Object>, o: ObjId, objects': seq<Object>) {
      |objects'| == |objects| && forall i: ObjId | i < |objects| && i != o :: objects'[i] == objects[i]
    }

    method CloseTakeMu(sid: Sid, o: ObjId)
      requires Valid() && o < |objects| && objects[o] == Object(nodeId, sid, Open)
      modifies this`trail, this`world, this`mu, this`objects
      ensures At(C(sid, o, CNew)) && old(trail) < trail && SameBut(old(objects), o, objects)
    {
      Mark(o, Closing(thread));
      Tick(Close(thread, o));
      mu := TakenBy(thread);
      Tick(Go(thread));
    }

    method CloseNew(sid: Sid, o: ObjId, fails: bool)
      requires At(C(sid, o, CNew)) && o < |objects|
      modifies this`trail, this`world, this`objects
      ensures At(C(sid, o, if fails then CUnMu else CLock)) && old(trail) < trail && SameBut(old(objects), o, objects)
      ensures fails ==> objects[o].status.Closed?
    {
      if fails {
        Mark(o, Closed);
        Tick(Fail(thread));
      } else {
        Pass(Go(thread), C(sid, o, CLock));
      }
    }

    method CloseLock(sid: Sid, o: ObjId, fails: bool) returns (ok: bool)
      requires At(C(sid, o, CLock)) && o < |objects|
      modifies this`trail, this`world, this`objects, etcd`locks
      ensures At(C(sid, o, if ok then CCancel else CUnMu)) && old(trail) < trail && SameBut(old(objects), o, objects)
      ensures ok == (!fails && sid !in old(etcd.locks))
      ensures etcd.locks == if ok then old(etcd.locks)[sid := Held(thread)] else old(etcd.locks)
      ensures !ok ==> objects[o].status.Closed?
    {
      ok := !fails && sid !in etcd.locks;
      if ok {
        etcd.locks := etcd.locks[sid := Held(thread)];
        Tick(Go(thread));
      } else {
        Mark(o, Closed);
        Tick(Fail(thread));
      }
    }

    /** Lines 182 to 188: stop keeping the lease alive. */
    method CloseCancel(sid: Sid, o: ObjId)
      requires At(C(sid, o, CCancel))
      modifies this`trail, this`world, this`sessionLeases, etcd`kept
      ensures At(C(sid, o, CDelete)) && old(trail) < trail
      ensures sessionLeases == old(sessionLeases) - {sid}
      ensures etcd.kept ==
              if sid in old(sessionLeases) then old(etcd.kept) - {old(sessionLeases)[sid]} else old(etcd.kept)
    {
      if sid in sessionLeases {
        var lease := sessionLeases[sid];
        sessionLeases := sessionLeases - {sid};
        etcd.kept := etcd.kept - {lease};
      }
      Tick(Go(thread));
      assert old(sessionLeases) - {sid} == sessionLeases;
    }

    /** Lines 190 to 195. */
    method CloseDelete(sid: Sid, o: ObjId, fails: bool)
      requires At(C(sid, o, CDelete)) && o < |objects|
      modifies this`trail, this`world, this`objects, etcd`registry
      ensures At(C(sid, o, if fails then CUnlock else CLocal)) && old(trail) < trail
      ensures SameBut(old(objects), o, objects)
      ensures etcd.registry == if fails then old(etcd.registry) else old(etcd.registry) - {sid}
      ensures fails ==> objects[o].status.Closed?
    {
      if fails {
        Mark(o, Closed);
        Tick(Fail(thread));
      } else {
        etcd.registry := etcd.registry - {sid};
        Tick(Go(thread));
      }
    }

    /** Line 198. */
    method CloseLocal(sid: Sid, o: ObjId)
      requires At(C(sid, o, CLocal)) && o < |objects|
      modifies this`trail, this`world, this`localSessions, this`objects
      ensures At(C(sid, o, CGauge)) && old(trail) < trail && SameBut(old(objects), o, objects)
      ensures localSessions == old(localSessions) - {sid}
      ensures objects[o].status.Closed?
    {
      localSessions := localSessions - {sid};
      Mark(o, Closed);
      Tick(Go(thread));
    }

    /** Line 199. */
    method CloseGauge(sid: Sid, o: ObjId)
      requires At(C(sid, o, CGauge))
      modifies this`trail, this`world, this`gauge
      ensures At(C(sid, o, CUnlock)) && old(trail) < trail && gauge == old(gauge) - 1
    {
      gauge := gauge - 1;
      Tick(Go(thread));
    }

    /** Lines 190 to 199: the key, then the local session and the gauge. */
    method CloseRemove(sid: Sid, o: ObjId, fails: bool)
      requires At(C(sid, o, CDelete)) && o < |objects|
      modifies this`trail, this`world, this`localSessions, this`gauge, this`objects, etcd`registry
      ensures At(C(sid, o, CUnlock)) && old(trail) < trail && SameBut(old(objects), o, objects)
      ensures etcd.registry == if fails then old(etcd.registry) else old(etcd.registry) - {sid}
      ensures localSessions == if fails then old(localSessions) else old(localSessions) - {sid}
      ensures gauge == old(gauge) - (if fails then 0 else 1)
      ensures objects[o].status.Closed?
    {
      CloseDelete(sid, o, fails);
      if !fails {
        CloseLocal(sid, o);
        CloseGauge(sid, o);
      }
    }

    method CloseUnlock(sid: Sid, o: ObjId, fails: bool)
      requires At(C(sid, o, CUnlock))
      modifies this`trail, this`world, etcd`locks
      ensures At(C(sid, o, CUnMu)) && old(trail) < trail
      ensures etcd.locks == if fails then old(etcd.locks)[sid := Orphaned] else old(etcd.locks) - {sid}
    {
      etcd.locks := if fails then etcd.locks[sid := Orphaned] else etcd.locks - {sid};
      Tick(if fails then Fail(thread) else Go(thread));
    }

    method CloseReleaseMu(sid: Sid, o: ObjId)
      requires At(C(sid, o, CUnMu))
      modifies this`trail, this`world, this`mu
      ensures Valid() && old(trail) < trail
    {
      mu := Free;
      Tick(Go(thread));
    }

    /** Lines 182 to 202, with the etcd lock held. */
    method CloseUnderLock(sid: Sid, o: ObjId, f: CloseFaults)
      requires At(C(sid, o, CCancel)) && o < |objects|
      modifies this`trail, this`world, this`sessionLeases, this`localSessions, this`gauge, this`objects
      modifies etcd`registry, etcd`kept, etcd`locks
      ensures At(C(sid, o, CUnMu)) && old(trail) < trail && SameBut(old(objects), o, objects)
      ensures sessionLeases == old(sessionLeases) - {sid}
      ensures sid in old(sessionLeases) ==> old(sessionLeases)[sid] !in etcd.kept
      ensures etcd.registry == if f.delete then old(etcd.registry) else old(etcd.registry) - {sid}
      ensures localSessions == if f.delete then old(localSessions) else old(localSessions) - {sid}
      ensures gauge == old(gauge) - (if f.delete then 0 else 1)
      ensures etcd.locks == if f.unlock then old(etcd.locks)[sid := Orphaned] else old(etcd.locks) - {sid}
      ensures objects[o].status.Closed?
    {
      CloseCancel(sid, o);
      CloseRemove(sid, o, f.delete);
      CloseUnlock(sid, o, f.unlock);
    }

    /** Lines 162 to 180: the mutex, then the etcd lock. */
    method CloseEnter(sid: Sid, o: ObjId, f: CloseFaults) returns (ok: bool)
      requires Valid() && o < |objects| && objects[o] == Object(nodeId, sid, Open)
      modifies this`trail, this`world, this`mu, this`objects, etcd`locks
      ensures At(C(sid, o, if ok then CCancel else CUnMu)) && old(trail) < trail && SameBut(old(objects), o, objects)
      ensures ok == !(f.newSession || f.lock || sid in old(etcd.locks))
      ensures etcd.locks == if ok then old(etcd.locks)[sid := Held(thread)] else old(etcd.locks)
      ensures !ok ==> objects[o].status.Closed?
    {
      CloseTakeMu(sid, o);
      CloseNew(sid, o, f.newSession);
      ok := false;
      if !f.newSession {
        ok := CloseLock(sid, o, f.lock);
      }
    }

    /** Lines 162 to 202, up to the release of the mutex. */
    method CloseHoldingMu(sid: Sid, o: ObjId, f: CloseFaults) returns (ok: bool)
      requires Valid() && o < |objects| && objects[o] == Object(nodeId, sid, Open)
      modifies this`trail, this`world, this`mu, this`sessionLeases, this`localSessions, this`gauge, this`objects, etcd
      ensures At(C(sid, o, CUnMu)) && old(trail) < trail && SameBut(old(objects), o, objects)
      ensures ok == !(f.newSession || f.lock || sid in old(etcd.locks))
      ensures etcd.registry == if ok && !f.delete then old(etcd.registry) - {sid} else old(etcd.registry)
      ensures localSessions == if ok && !f.delete then old(localSessions) - {sid} else old(localSessions)
      ensures gauge == old(gauge) - (if ok && !f.delete then 1 else 0)
      ensures sessionLeases == if ok then old(sessionLeases) - {sid} else old(sessionLeases)
      ensures ok && sid in old(sessionLeases) ==> old(sessionLeases)[sid] !in etcd.kept
      ensures etcd.locks == if ok && f.unlock then old(etcd.locks)[sid := Orphaned] else old(etcd.locks)
      ensures objects[o].status.Closed?
    {
      ghost var locks := etcd.locks;
      ok := CloseEnter(sid, o, f);
      if ok {
        CloseUnderLock(sid, o, f);
        Unlocked(locks, sid, Held(thread));
      }
    }

    /**
     * The callback of an open session. The key, the local session and the gauge go together
     * or not at all; the lease is given up as soon as the etcd lock is held, even if the key
     * then stays. Either way the session is over, and left in the map if anything failed.
     */
    method OnSessionClosed(sid: Sid, o: ObjId, f: CloseFaults)
      requires Valid() && o < |objects| && objects[o] == Object(nodeId, sid, Open)
      modifies this`trail, this`world, this`mu, this`sessionLeases, this`localSessions, this`gauge, this`objects, etcd
      ensures Valid() && old(trail) < trail && SameBut(old(objects), o, objects)
      ensures var locked := !(f.newSession || f.lock || sid in old(etcd.locks));
              var done := locked && !f.delete;
              && etcd.registry == (if done then old(etcd.registry) - {sid} else old(etcd.registry))
              && localSessions == (if done then old(localSessions) - {sid} else old(localSessions))
              && gauge == old(gauge) - (if done then 1 else 0)
              && sessionLeases == (if locked then old(sessionLeases) - {sid} else old(sessionLeases))
              && (locked && sid in old(sessionLeases) ==> old(sessionLeases)[sid] !in etcd.kept)
              && etcd.locks == (if locked && f.unlock then old(etcd.locks)[sid := Orphaned] else old(etcd.locks))
      ensures objects[o].status.Closed?
    {
      var ok := CloseHoldingMu(sid, o, f);
      CloseReleaseMu(sid, o);
    }
  }
}
