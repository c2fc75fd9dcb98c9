/**
 * What one step of a thread does to each part of the state, told by the program counters
 * before and after it. The invariants are proved against these facts.
 */
module EtcdEffects {
  import opened SessionMeta
  import opened EtcdProtocol

  predicate GNext(g: GStage, g': GStage) {
    match g'
    case GNew => false
    case GLock => g.GNew?
    case GGet => g.GLock?
    case GGrant => g.GGet?
    case GKeep(_) => g.GGrant?
    case GMu(l) => g == GKeep(l)
    case GPut(l) => g == GMu(l)
    case GUnMu(_) => g.GPut?
    case GUnlock(out) => g == GUnMu(out) || g.GGet? || (g.GGrant? && out.Failed?)
    case GReturn(out) => g == GUnlock(out) || (out.Failed? && (g.GNew? || g.GLock?))
  }

  predicate CNext(c: CStage, c': CStage) {
    match c'
    case CMu => false
    case CNew => c.CMu?
    case CLock => c.CNew?
    case CCancel => c.CLock?
    case CDelete => c.CCancel?
    case CLocal => c.CDelete?
    case CGauge => c.CLocal?
    case CUnlock => c.CGauge? || c.CDelete?
    case CUnMu => c.CUnlock? || c.CNew? || c.CLock?
  }

  predicate PcEffect(pc: Pc, pc': Pc) {
    match pc'
    case Idle => (pc.G? && pc.g.GReturn?) || (pc.E? && pc.e.EUnMu?) || (pc.C? && pc.c.CUnMu?)
    case G(sid, call, g') =>
      if pc.Idle? then g'.GNew? else pc.G? && pc.sid == sid && pc.call == call && GNext(pc.g, g')
    case E(sid, e') =>
      if pc.Idle? then e'.EMu? else pc.E? && pc.sid == sid && !e'.EMu? && (e'.EInsert? ==> pc.e.EMu?)
    case C(sid, o, c') =>
      if pc.Idle? then c'.CMu? else pc.C? && pc.sid == sid && pc.obj == o && CNext(pc.c, c')
  }

  ghost predicate LockEffect(s: State, t: Tid, s': State)
    requires t < |s.threads| == |s'.threads|
  {
    var pc, pc' := s.threads[t].pc, s'.threads[t].pc;
    if HoldsLock(pc) == HoldsLock(pc') then s'.locks == s.locks
    else if HoldsLock(pc') then pc'.sid !in s.locks && s'.locks == s.locks[pc'.sid := Held(t)]
    else s'.locks == s.locks - {pc.sid} || s'.locks == s.locks[pc.sid := Orphaned]
  }

  ghost predicate MuEffect(s: State, t: Tid, s': State)
    requires Active(s, t) || IdleThread(s, t)
    requires |s.threads| == |s'.threads| && |s.nodes| == |s'.nodes|
  {
    var n, pc, pc' := s.threads[t].node, s.threads[t].pc, s'.threads[t].pc;
    && s'.nodes == s.nodes[n := s'.nodes[n]]
    && s'.nodes[n].endpoint == s.nodes[n].endpoint
    && if HoldsMu(pc) == HoldsMu(pc') then s'.nodes[n].mu == s.nodes[n].mu
       else if HoldsMu(pc') then s.nodes[n].mu.Free? && s'.nodes[n].mu == TakenBy(t)
       else s'.nodes[n].mu.Free?
  }

  predicate Puts(pc: Pc, pc': Pc) {
    pc.G? && pc.g.GPut? && pc'.G? && pc'.g.GUnMu? && pc'.g.out.Got?
  }

  predicate Deletes(pc: Pc, pc': Pc) {
    pc.C? && pc.c.CDelete? && pc'.C? && pc'.c.CLocal?
  }

  predicate Finds(pc: Pc, pc': Pc) {
    pc.G? && pc.g.GGet? && pc'.G? && pc'.g.GUnlock? && pc'.g.out.Got?
  }

  predicate Cancels(pc: Pc) {
    pc.C? && pc.c.CCancel?
  }

  ghost predicate RegistryEffect(s: State, t: Tid, s': State)
    requires Active(s, t) || IdleThread(s, t)
    requires |s.threads| == |s'.threads|
  {
    var n, pc, pc' := s.threads[t].node, s.threads[t].pc, s'.threads[t].pc;
    && (s'.registry ==
        if Puts(pc, pc') then s.registry[pc.sid := Entry(OwnMeta(pc.sid, n, s.nodes[n].endpoint), pc.g.lease)]
        else if Deletes(pc, pc') then s.registry - {pc.sid}
        else s.registry)
    && (Finds(pc, pc') ==> pc.sid in s.registry)
    && (pc'.G? && pc'.g.GGrant? ==> pc'.sid !in s.registry)
  }

  ghost predicate LeaseEffect(s: State, t: Tid, s': State)
    requires Active(s, t) || IdleThread(s, t)
    requires |s.threads| == |s'.threads| && |s.nodes| == |s'.nodes|
  {
    var n, pc, pc' := s.threads[t].node, s.threads[t].pc, s'.threads[t].pc;
    var had, has := s.nodes[n].leases, s'.nodes[n].leases;
    && (if pc.G? && pc.g.GGrant? && pc'.G? && pc'.g.GKeep?
        then s'.granted == s.granted + [Owner(n, pc.sid)] && pc'.g.lease == |s.granted|
             && s'.live == s.live + {|s.granted|}
        else s'.granted == s.granted && s'.live == s.live)
    && (if pc.G? && pc.g.GKeep?
        then s'.kept == s.kept || (s'.kept == s.kept + {pc.g.lease} && pc.g.lease in s.live)
        else s'.kept == if Cancels(pc) && pc.sid in had then s.kept - {had[pc.sid]} else s.kept)
    && (has ==
        if pc.G? && pc.g.GMu? then had[pc.sid := pc.g.lease]
        else if Cancels(pc) then had - {pc.sid}
        else had)
    && (Puts(pc, pc') ==> pc.g.lease in s.live)
  }

  predicate GivesUp(pc: Pc, pc': Pc) {
    pc.C? && pc'.C? &&
    (((pc.c.CNew? || pc.c.CLock?) && pc'.c.CUnMu?) || (pc.c.CDelete? && pc'.c.CUnlock?) || pc.c.CLocal?)
  }

  ghost predicate ObjectEffect(s: State, t: Tid, s': State)
    requires Active(s, t) || IdleThread(s, t)
    requires |s.threads| == |s'.threads| && |s.nodes| == |s'.nodes|
  {
    var n, pc, pc' := s.threads[t].node, s.threads[t].pc, s'.threads[t].pc;
    var had, has := s.nodes[n].sessions, s'.nodes[n].sessions;
    && (if pc.E? && pc.e.EInsert? then s'.objects == s.objects + [Object(n, pc.sid, Open)]
        else if pc.Idle? && pc'.C? then
          pc'.obj < |s.objects| && s.objects[pc'.obj] == Object(n, pc'.sid, Open)
          && s'.objects == s.objects[pc'.obj := Object(n, pc'.sid, Closing(t))]
        else if GivesUp(pc, pc') then
          pc.obj < |s.objects| && s'.objects == s.objects[pc.obj := s.objects[pc.obj].(status := Closed)]
        else s'.objects == s.objects)
    && (has ==
        if pc.E? && pc.e.EInsert? then had[pc.sid := |s.objects|]
        else if pc.C? && pc.c.CLocal? then had - {pc.sid}
        else had)
    && (pc.E? && pc.e.EMu? ==> (pc'.E? && pc'.e.EInsert? <==> pc.sid !in had))
    && (s'.nodes[n].gauge == s.nodes[n].gauge
        + (if pc'.E? && pc'.e.EInsert? then 1 else 0) - (if pc.C? && pc.c.CGauge? then 1 else 0))
  }

  ghost predicate LogEffect(s: State, t: Tid, s': State)
    requires Active(s, t) || IdleThread(s, t)
    requires |s.threads| == |s'.threads| && |s.nodes| == |s'.nodes|
  {
    var n, pc, pc' := s.threads[t].node, s.threads[t].pc, s'.threads[t].pc;
    if pc.Idle? && pc'.G? then s'.log == s.log + [Invoke(n, pc'.sid)] && pc'.call == |s.log|
    else if Finds(pc, pc') then
      pc.sid in s.registry && pc'.g.out == Got(Seen(s.registry[pc.sid].meta, n), |s.log|)
      && s'.log == s.log + [Take(pc.call, pc'.g.out.meta)]
    else if Puts(pc, pc') then
      pc'.g.out == Got(OwnMeta(pc.sid, n, s.nodes[n].endpoint), |s.log|)
      && s'.log == s.log + [Take(pc.call, pc'.g.out.meta)]
    else if pc.G? && pc.g.GReturn? then s'.log == s.log + [Return(pc.call, pc.g.out)]
    else if Deletes(pc, pc') then s'.log == s.log + [Removed(pc.sid)]
    else if Cancels(pc) then s'.log == s.log + [Cancelled(n, pc.sid)]
    else s'.log == s.log
  }

  /** Everything above, for one step of `t`. */
  ghost predicate Effect(s: State, t: Tid, s': State)
    requires Typed(s) && t < |s.threads|
  {
    && StepOf(s, t, s')
    && PcEffect(s.threads[t].pc, s'.threads[t].pc)
    && LockEffect(s, t, s') && MuEffect(s, t, s')
    && RegistryEffect(s, t, s') && LeaseEffect(s, t, s')
    && ObjectEffect(s, t, s') && LogEffect(s, t, s')
  }

  lemma GGoEffectBeforePut(s: State, t: Tid)
    requires Typed(s) && Active(s, t) && s.threads[t].pc.G? && GCanGo(s, t)
    requires var g := s.threads[t].pc.g; g.GNew? || g.GLock? || g.GGet? || g.GGrant? || g.GKeep?
    ensures Effect(s, t, GGo(s, t))
  {
    GGoStepOf(s, t);
  }

  lemma GGoEffectFromPut(s: State, t: Tid)
    requires Typed(s) && Active(s, t) && s.threads[t].pc.G? && GCanGo(s, t)
    requires var g := s.threads[t].pc.g; g.GMu? || g.GPut? || g.GUnMu? || g.GUnlock? || g.GReturn?
    ensures Effect(s, t, GGo(s, t))
  {
    GGoStepOf(s, t);
  }

  lemma GFailEffect(s: State, t: Tid)
    requires Typed(s) && Active(s, t) && s.threads[t].pc.G? && GCanFail(s.threads[t].pc.g)
    ensures Effect(s, t, GFail(s, t))
  {
    GFailStepOf(s, t);
  }

  lemma EGoEffect(s: State, t: Tid)
    requires Typed(s) && Active(s, t) && s.threads[t].pc.E? && ECanGo(s, t)
    ensures Effect(s, t, EGo(s, t))
  {
    EStepOf(s, t);
  }

  lemma CGoEffectBeforeDelete(s: State, t: Tid)
    requires Typed(s) && Active(s, t) && s.threads[t].pc.C? && CCanGo(s, t)
    requires var c := s.threads[t].pc.c; c.CMu? || c.CNew? || c.CLock? || c.CCancel?
    ensures Effect(s, t, CGo(s, t))
  {
    CGoStepOf(s, t);
  }

  lemma CGoEffectFromDelete(s: State, t: Tid)
    requires Typed(s) && Active(s, t) && s.threads[t].pc.C? && CCanGo(s, t)
    requires var c := s.threads[t].pc.c; c.CDelete? || c.CLocal? || c.CGauge? || c.CUnlock? || c.CUnMu?
    ensures Effect(s, t, CGo(s, t))
  {
    CGoStepOf(s, t);
  }

  lemma CFailEffect(s: State, t: Tid)
    requires Typed(s) && Active(s, t) && s.threads[t].pc.C? && CCanFail(s.threads[t].pc.c)
    ensures Effect(s, t, CFail(s, t))
  {
    CFailStepOf(s, t);
  }

  lemma StartEffect(s: State, a: Action)
    requires Typed(s) && Enabled(s, a) && (a.Lookup? || a.GetSession? || a.Close?)
    ensures Effect(s, a.tid, Apply(s, a))
  {
    ApplyStepOf(s, a);
  }

  lemma ApplyEffect(s: State, a: Action)
    requires Typed(s) && Enabled(s, a) && ByThread(a)
    ensures Effect(s, a.tid, Apply(s, a))
  {
    match a
    case Go(t) =>
      match s.threads[t].pc {
        case G(_, _, g) =>
          if g.GMu? || g.GPut? || g.GUnMu? || g.GUnlock? || g.GReturn? {
            GGoEffectFromPut(s, t);
          } else {
            GGoEffectBeforePut(s, t);
          }
        case E(_, _) => EGoEffect(s, t);
        case C(_, _, c) =>
          if c.CMu? || c.CNew? || c.CLock? || c.CCancel? {
            CGoEffectBeforeDelete(s, t);
          } else {
            CGoEffectFromDelete(s, t);
          }
      }
    case Fail(t) => if s.threads[t].pc.G? { GFailEffect(s, t); } else { CFailEffect(s, t); }
    case _ => StartEffect(s, a);
  }
}
