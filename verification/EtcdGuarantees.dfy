/** What the proofs about runs say of the fields of a coordinator object. */
module EtcdGuarantees {
  import opened EtcdProtocol
  import opened EtcdLeases
  import opened EtcdHistory
  import opened EtcdSessions
  import opened EtcdAgreement
  import opened EtcdCoordinators

  /**
   * Whatever calls were made and whichever of their etcd calls failed: the gauge counts the
   * local sessions, every kept-alive entry of this node is under the handle it has stored,
   * and the answers given so far are those of an atomic get-or-create.
   */
  lemma ObjectFollowsRuns(e: EtcdCoordinator)
    requires e.Valid() && Init(e.start)
    ensures e.gauge == |e.localSessions|
    ensures forall sid | sid in e.etcd.registry && e.etcd.registry[sid].meta.nodeId == e.nodeId
                         && e.etcd.registry[sid].lease in e.etcd.kept ::
              sid in e.sessionLeases && e.sessionLeases[sid] == e.etcd.registry[sid].lease
    ensures Linearizable(e.world.log, e.world.nodes) && Metas(e.etcd.registry) == Replay(e.world.log, e.world.nodes)
  {
    GaugeCountsSessions(e.start, e.trail);
    KeptEntriesHaveHandles(e.start, e.trail);
    LookupsLinearize(e.start, e.trail);
  }
}
