/** Values shared by the two coordinators: session metadata and the etcd key space. */
module SessionMeta {

  /** A node is named by its place in the cluster, which stands for its random, unique id. */
  type NodeId = nat
  type Sid = string

  /** The answer of `getOrCreateSession`, and (with `redirect` unset) what is stored in etcd. */
  datatype Meta = Meta(sessionId: Sid, nodeId: NodeId, nodeEndpoint: string, redirect: bool)

  /** The meta a node writes when it takes a session. */
  function OwnMeta(sid: Sid, node: NodeId, endpoint: string): Meta {
    Meta(sid, node, endpoint, false)
  }

  /** What a node answers when it finds `stored` in the registry. */
  function Seen(stored: Meta, node: NodeId): Meta {
    stored.(redirect := stored.nodeId != node)
  }

  /** The etcd key holding the meta of `sid`. */
  function MetaKey(sid: Sid): string {
    "/session/" + sid
  }

  /** Every key the etcd mutex of `sid` creates or waits on starts with this. */
  function LockPrefix(sid: Sid): string {
    MetaKey(sid) + "/"
  }

  /**
   * A meta key falls among the lock keys of `other` exactly when its session id extends
   * `other` past a slash. The registry and the locks may be kept apart, as this model does,
   * because ids hold no slash.
   */
  lemma MetaKeyAmongLockKeys(sid: Sid, other: Sid)
    ensures LockPrefix(other) <= MetaKey(sid) <==> other + "/" <= sid
    ensures '/' !in sid ==> !(LockPrefix(other) <= MetaKey(sid))
    ensures |MetaKey(sid)| == 9 + |sid| && MetaKey(sid)[..9] == "/session/" && MetaKey(sid)[9..] == sid
  {
    var head := "/session/";
    assert LockPrefix(other) == head + (other + "/");
    if LockPrefix(other) <= MetaKey(sid) {
      var n := |other + "/"|;
      assert MetaKey(sid)[..|head| + n] == head + (other + "/");
      assert sid[..n] == MetaKey(sid)[|head|..|head| + n] == other + "/";
    }
    if other + "/" <= sid {
      assert sid[|other|] == (other + "/")[|other|] == '/';
      assert MetaKey(sid)[..|LockPrefix(other)|] == LockPrefix(other);
    }
  }
}
