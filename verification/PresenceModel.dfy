/**
 * Presence replication as a run of operations on values: a revisioned map of peer metadata,
 * and one bounded queue of snapshots per listener.
 */
module PresenceModel {

  type PeerId = string
  type ChanId = nat

  /** The metadata of a peer. A `presence_set` of JSON null stores `Null`; it does not erase. */
  datatype Value = Null | Data(json: string)

  /** `Erase` is the untyped nil, which only the end of a connection sends. */
  datatype Change = Set(value: Value) | Erase

  datatype Update = Update(peer: PeerId, change: Change)

  datatype Message = Message(revision: nat, meta: map<PeerId, Value>)

  /** The capacity of a listener's channel. */
  const CAPACITY: nat := 32

  /** The revision counter is 64 bits wide. */
  const REVISIONS: nat := 0x1_0000_0000_0000_0000

  /**
   * A listener's channel and what has become of the broadcasts made while it was
   * registered: `since` and `until` are how many updates there had been when it was
   * registered and unregistered.
   */
  datatype Channel = Channel(
    queued: seq<Message>, read: seq<Message>, dropped: seq<nat>, since: nat, until: Registration)

  datatype Registration = Registered(peer: PeerId) | Left(at: nat)

  datatype Session = Session(
    presence: map<PeerId, Value>,
    revision: nat,
    listeners: map<PeerId, ChanId>,
    channels: seq<Channel>,
    updates: seq<Update>)

  /** A join makes a new channel and registers it; the same peer joining again displaces its old one. */
  datatype Op =
    | UpdatePresence(peer: PeerId, change: Change)
    | AddListener(peer: PeerId)
    | RemoveListener(peer: PeerId)
    | Read(chan: ChanId)

  // ---- the operations ----

  function Changed(presence: map<PeerId, Value>, u: Update): map<PeerId, Value> {
    match u.change
    case Set(v) => presence[u.peer := v]
    case Erase => presence - {u.peer}
  }

  /** The presence map as a fold of the updates. */
  function Folded(updates: seq<Update>): map<PeerId, Value> {
    if updates == [] then map[] else Changed(Folded(updates[..|updates| - 1]), updates[|updates| - 1])
  }

  function NextRevision(r: nat): nat {
    if r + 1 < REVISIONS then r + 1 else 0
  }

  /** A send that does not block. */
  function SendIfRoom(c: Channel, m: Message): Channel {
    if |c.queued| < CAPACITY then c.(queued := c.queued + [m]) else c.(dropped := c.dropped + [m.revision])
  }

  /** Every registered channel is offered the message; which order makes no difference. */
  function Broadcast(channels: seq<Channel>, listeners: map<PeerId, ChanId>, m: Message): seq<Channel> {
    seq(|channels|, (i: nat) requires i < |channels| =>
      if i in listeners.Values then SendIfRoom(channels[i], m) else channels[i])
  }

  /** Channel `c` has lost its registration after `at` updates. */
  function Unregister(channels: seq<Channel>, c: ChanId, at: nat): seq<Channel>
    requires c < |channels|
  {
    channels[c := channels[c].(until := Left(at))]
  }

  /** Registering or unregistering `peer` ends the registration its channel had. */
  function Displaced(s: Session, peer: PeerId): seq<Channel> {
    if peer in s.listeners && s.listeners[peer] < |s.channels|
    then Unregister(s.channels, s.listeners[peer], |s.updates|) else s.channels
  }

  function Apply(s: Session, op: Op): Session {
    match op
    case UpdatePresence(peer, change) =>
      var u := Update(peer, change);
      var presence := Changed(s.presence, u);
      var revision := NextRevision(s.revision);
      Session(presence, revision, s.listeners,
              Broadcast(s.channels, s.listeners, Message(revision, presence)), s.updates + [u])
    case AddListener(peer) =>
      s.(listeners := s.listeners[peer := |s.channels|],
         channels := Displaced(s, peer) + [Channel([], [], [], |s.updates|, Registered(peer))])
    case RemoveListener(peer) =>
      s.(listeners := s.listeners - {peer}, channels := Displaced(s, peer))
    case Read(c) =>
      if c < |s.channels| && s.channels[c].queued != [] then
        var ch := s.channels[c];
        s.(channels := s.channels[c := ch.(queued := ch.queued[1..], read := ch.read + [ch.queued[0]])])
      else s
  }

  const EMPTY := Session(map[], 0, map[], [], [])

  function Run(ops: seq<Op>): Session {
    if ops == [] then EMPTY else Apply(Run(ops[..|ops| - 1]), ops[|ops| - 1])
  }

  /** What the listener of channel `c` has read. */
  function ReadOf(s: Session, c: ChanId): seq<Message> {
    if c < |s.channels| then s.channels[c].read else []
  }

  /** Only reading a channel changes what was read from it. */
  lemma ReadOnlyByReading(ops: seq<Op>, op: Op, c: ChanId)
    requires op != Read(c)
    ensures ReadOf(Run(ops + [op]), c) == ReadOf(Run(ops), c)
  {
    RunSnoc(ops, op);
  }

  // ---- what holds of every run ----

  /** Everything a listener has got, read or not. */
  function Received(c: Channel): seq<Message> {
    c.read + c.queued
  }

  /** The updates broadcast while the channel was registered end here. */
  function End(s: Session, c: Channel): nat {
    match c.until case Registered(_) => |s.updates| case Left(at) => at
  }

  ghost predicate Increasing(revs: seq<nat>) {
    forall i: nat, j: nat | i < j < |revs| :: revs[i] < revs[j]
  }

  function Revisions(ms: seq<Message>): seq<nat> {
    seq(|ms|, (i: nat) requires i < |ms| => ms[i].revision)
  }

  /** Each message carries the map folded from all updates up to its revision. */
  ghost predicate Faithful(updates: seq<Update>, ms: seq<Message>) {
    forall i: nat | i < |ms| :: ms[i].revision <= |updates| && ms[i].meta == Folded(updates[..ms[i].revision])
  }

  ghost predicate Snapshots(s: Session, c: Channel) {
    Faithful(s.updates, Received(c))
  }

  /** The revisions after `since` up to `end` are each in `got` or in `lost`, once and in order. */
  ghost predicate Ledger(got: seq<nat>, lost: seq<nat>, since: nat, end: nat) {
    && since <= end && Increasing(got) && Increasing(lost)
    && (forall r: nat :: r in got || r in lost <==> since < r <= end)
    && (forall r: nat | r in lost :: r !in got)
    && |got| + |lost| == end - since
  }

  /** Every broadcast made while the channel was registered was received or dropped, once. */
  ghost predicate Accounted(s: Session, c: Channel) {
    && |c.queued| <= CAPACITY && End(s, c) <= |s.updates|
    && Ledger(Revisions(Received(c)), c.dropped, c.since, End(s, c))
  }

  /** A channel knows the peer it is registered for, so no two peers share one. */
  ghost predicate ListenersInv(s: Session) {
    && (forall p | p in s.listeners ::
          s.listeners[p] < |s.channels| && s.channels[s.listeners[p]].until == Registered(p))
    && (forall c: ChanId | c < |s.channels| && s.channels[c].until.Registered? ::
          s.channels[c].until.peer in s.listeners && s.listeners[s.channels[c].until.peer] == c)
  }

  /** The registered channels are those that are offered a broadcast. */
  lemma ListenersAreRegistered(s: Session, c: ChanId)
    requires ListenersInv(s) && c < |s.channels|
    ensures c in s.listeners.Values <==> s.channels[c].until.Registered?
  {
    if s.channels[c].until.Registered? {
      assert s.listeners[s.channels[c].until.peer] == c;
    }
  }

  ghost predicate ChannelsInv(s: Session) {
    forall c: ChanId | c < |s.channels| :: Snapshots(s, s.channels[c]) && Accounted(s, s.channels[c])
  }

  ghost predicate Inv(s: Session) {
    s.revision == |s.updates| && s.presence == Folded(s.updates) && ListenersInv(s) && ChannelsInv(s)
  }

  // ---- each operation keeps the invariant ----

  lemma FoldedSnoc(updates: seq<Update>, u: Update)
    ensures Folded(updates + [u]) == Changed(Folded(updates), u)
  {
    assert (updates + [u])[..|updates|] == updates;
  }

  /** A later update alters no snapshot already taken. */
  lemma FaithfulStays(updates: seq<Update>, u: Update, ms: seq<Message>)
    requires Faithful(updates, ms)
    ensures Faithful(updates + [u], ms)
  {
    forall i: nat | i < |ms|
      ensures ms[i].revision <= |updates + [u]| && ms[i].meta == Folded((updates + [u])[..ms[i].revision])
    {
      assert (updates + [u])[..ms[i].revision] == updates[..ms[i].revision];
    }
  }

  lemma FaithfulSnoc(updates: seq<Update>, ms: seq<Message>)
    requires Faithful(updates, ms)
    ensures Faithful(updates, ms + [Message(|updates|, Folded(updates))])
  {
    assert updates[..|updates|] == updates;
  }

  lemma RevisionsSnoc(ms: seq<Message>, m: Message)
    ensures Revisions(ms + [m]) == Revisions(ms) + [m.revision]
  {}

  lemma LedgerGot(got: seq<nat>, lost: seq<nat>, since: nat, end: nat)
    requires Ledger(got, lost, since, end)
    ensures Ledger(got + [end + 1], lost, since, end + 1)
  {
    IncreasingSnoc(got, end + 1);
  }

  lemma LedgerLost(got: seq<nat>, lost: seq<nat>, since: nat, end: nat)
    requires Ledger(got, lost, since, end)
    ensures Ledger(got, lost + [end + 1], since, end + 1)
  {
    IncreasingSnoc(lost, end + 1);
  }

  lemma IncreasingSnoc(revs: seq<nat>, r: nat)
    requires Increasing(revs) && forall x: nat | x in revs :: x < r
    ensures Increasing(revs + [r])
  {
    forall i: nat, j: nat | i < j < |revs + [r]| ensures (revs + [r])[i] < (revs + [r])[j] {
      if j == |revs| {
        assert revs[i] in revs;
      }
    }
  }

  /** A registered channel takes the next revision in, or counts it as dropped. */
  lemma OfferedChannel(s: Session, s': Session, u: Update, ch: Channel)
    requires Snapshots(s, ch) && Accounted(s, ch) && ch.until.Registered? && s'.updates == s.updates + [u]
    ensures var m := Message(|s'.updates|, Folded(s'.updates));
            Snapshots(s', SendIfRoom(ch, m)) && Accounted(s', SendIfRoom(ch, m))
  {
    var m := Message(|s'.updates|, Folded(s'.updates));
    var ch' := SendIfRoom(ch, m);
    FaithfulStays(s.updates, u, Received(ch));
    if |ch.queued| < CAPACITY {
      assert Received(ch') == Received(ch) + [m];
      FaithfulSnoc(s'.updates, Received(ch));
      RevisionsSnoc(Received(ch), m);
      LedgerGot(Revisions(Received(ch)), ch.dropped, ch.since, |s.updates|);
    } else {
      assert Received(ch') == Received(ch);
      LedgerLost(Revisions(Received(ch)), ch.dropped, ch.since, |s.updates|);
    }
  }

  lemma UpdateChannels(s: Session, s': Session, u: Update)
    requires ChannelsInv(s) && s'.updates == s.updates + [u]
    requires forall c: ChanId | c < |s.channels| :: c in s.listeners.Values <==> s.channels[c].until.Registered?
    requires s'.channels == Broadcast(s.channels, s.listeners, Message(|s'.updates|, Folded(s'.updates)))
    ensures ChannelsInv(s')
  {
    forall c: ChanId | c < |s'.channels|
      ensures Snapshots(s', s'.channels[c]) && Accounted(s', s'.channels[c])
    {
      var ch := s.channels[c];
      if ch.until.Registered? {
        OfferedChannel(s, s', u, ch);
      } else {
        FaithfulStays(s.updates, u, Received(ch));
      }
    }
  }

  /** Losing its registration changes nothing of what a channel has received. */
  lemma DisplacedChannels(s: Session, peer: PeerId, s': Session)
    requires ChannelsInv(s) && s'.updates == s.updates && s'.channels == Displaced(s, peer)
    requires peer in s.listeners ==>
               s.listeners[peer] < |s.channels| && s.channels[s.listeners[peer]].until.Registered?
    ensures ChannelsInv(s')
  {
    forall c: ChanId | c < |s'.channels| ensures Snapshots(s', s'.channels[c]) && Accounted(s', s'.channels[c]) {
      assert Received(s'.channels[c]) == Received(s.channels[c]);
      assert End(s', s'.channels[c]) == End(s, s.channels[c]);
      assert Snapshots(s, s.channels[c]) && Accounted(s, s.channels[c]);
    }
  }

  lemma NewChannel(s: Session, s': Session, peer: PeerId)
    requires ChannelsInv(s) && s'.updates == s.updates
    requires s'.channels == s.channels + [Channel([], [], [], |s.updates|, Registered(peer))]
    ensures ChannelsInv(s')
  {
    var c := s'.channels[|s.channels|];
    assert Received(c) == [];
    assert Snapshots(s', c) && Accounted(s', c);
    forall c: ChanId | c < |s.channels| ensures Snapshots(s', s'.channels[c]) && Accounted(s', s'.channels[c]) {
      assert s'.channels[c] == s.channels[c] && End(s', s.channels[c]) == End(s, s.channels[c]);
    }
  }

  /** Reading moves a message from the queue to what has been read. */
  lemma ReadReceived(ch: Channel)
    requires ch.queued != []
    ensures Received(ch.(queued := ch.queued[1..], read := ch.read + [ch.queued[0]])) == Received(ch)
  {
    assert ch.queued == [ch.queued[0]] + ch.queued[1..];
  }

  lemma ReadChannels(s: Session, c: ChanId)
    requires ChannelsInv(s)
    ensures ChannelsInv(Apply(s, Read(c)))
  {
    if c < |s.channels| && s.channels[c].queued != [] {
      ReadReceived(s.channels[c]);
    }
    var s' := Apply(s, Read(c));
    forall i: ChanId | i < |s'.channels| ensures Snapshots(s', s'.channels[i]) && Accounted(s', s'.channels[i]) {
      assert Received(s'.channels[i]) == Received(s.channels[i]);
    }
  }

  lemma RunSnoc(ops: seq<Op>, op: Op)
    ensures Run(ops + [op]) == Apply(Run(ops), op)
  {
    assert (ops + [op])[..|ops|] == ops;
  }

  lemma {:induction false} ListenersOfRun(ops: seq<Op>)
    ensures ListenersInv(Run(ops))
  {
    if ops != [] {
      var before := ops[..|ops| - 1];
      ListenersOfRun(before);
      ListenersKept(Run(before), ops[|ops| - 1]);
    }
  }

  lemma ListenersKeptByUpdate(s: Session, peer: PeerId, change: Change)
    requires ListenersInv(s)
    ensures ListenersInv(Apply(s, UpdatePresence(peer, change)))
  {}

  lemma ListenersKeptByAdd(s: Session, peer: PeerId)
    requires ListenersInv(s)
    ensures ListenersInv(Apply(s, AddListener(peer)))
  {}

  lemma ListenersKeptByRemove(s: Session, peer: PeerId)
    requires ListenersInv(s)
    ensures ListenersInv(Apply(s, RemoveListener(peer)))
  {}

  lemma ListenersKept(s: Session, op: Op)
    requires ListenersInv(s)
    ensures ListenersInv(Apply(s, op))
  {
    match op
    case UpdatePresence(peer, change) => ListenersKeptByUpdate(s, peer, change);
    case AddListener(peer) => ListenersKeptByAdd(s, peer);
    case RemoveListener(peer) => ListenersKeptByRemove(s, peer);
    case Read(_) =>
  }

  lemma UpdateKeeps(s: Session, peer: PeerId, change: Change)
    requires Inv(s) && |s.updates| + 1 < REVISIONS
    ensures ChannelsInv(Apply(s, UpdatePresence(peer, change)))
  {
    var s' := Apply(s, UpdatePresence(peer, change));
    FoldedSnoc(s.updates, Update(peer, change));
    forall c: ChanId | c < |s.channels| ensures c in s.listeners.Values <==> s.channels[c].until.Registered? {
      ListenersAreRegistered(s, c);
    }
    UpdateChannels(s, s', Update(peer, change));
  }

  lemma AddKeeps(s: Session, peer: PeerId)
    requires Inv(s)
    ensures ChannelsInv(Apply(s, AddListener(peer)))
  {
    var mid := s.(channels := Displaced(s, peer));
    DisplacedChannels(s, peer, mid);
    NewChannel(mid, Apply(s, AddListener(peer)), peer);
  }

  lemma OpKeeps(s: Session, op: Op)
    requires Inv(s) && (op.UpdatePresence? ==> |s.updates| + 1 < REVISIONS)
    ensures Inv(Apply(s, op))
  {
    ListenersKept(s, op);
    match op
    case UpdatePresence(peer, change) =>
      FoldedSnoc(s.updates, Update(peer, change));
      UpdateKeeps(s, peer, change);
    case AddListener(peer) => AddKeeps(s, peer);
    case RemoveListener(peer) => DisplacedChannels(s, peer, Apply(s, op));
    case Read(c) => ReadChannels(s, c);
  }

  function UpdateCount(ops: seq<Op>): nat {
    if ops == [] then 0
    else UpdateCount(ops[..|ops| - 1]) + if ops[|ops| - 1].UpdatePresence? then 1 else 0
  }

  lemma {:induction false} RunKeeps(ops: seq<Op>)
    requires UpdateCount(ops) < REVISIONS
    ensures Inv(Run(ops)) && |Run(ops).updates| == UpdateCount(ops)
  {
    if ops != [] {
      var before := ops[..|ops| - 1];
      RunKeeps(before);
      OpKeeps(Run(before), ops[|ops| - 1]);
    }
  }

  // ---- the main results ----

  /**
   * Over every run of fewer than 2^64 updates: whatever a listener has read or will read next
   * carries exactly the presence map folded from all updates up to its revision, revisions
   * only rise, and every update made while it was registered was received or dropped, once.
   */
  lemma MessagesAreSnapshots(ops: seq<Op>, c: ChanId)
    requires UpdateCount(ops) < REVISIONS && c < |Run(ops).channels|
    ensures var s := Run(ops);
            s.presence == Folded(s.updates) && Snapshots(s, s.channels[c]) && Accounted(s, s.channels[c])
  {
    RunKeeps(ops);
  }

  // ---- what the presence map shows ----

  /** Update `i` is the last one about `p`. */
  ghost predicate LastAbout(updates: seq<Update>, p: PeerId, i: nat) {
    i < |updates| && updates[i].peer == p && forall j: nat | i < j < |updates| :: updates[j].peer != p
  }

  /** `p` was last set, to `v`. */
  ghost predicate LastSet(updates: seq<Update>, p: PeerId, v: Value) {
    exists i: nat :: LastAbout(updates, p, i) && updates[i].change == Set(v)
  }

  lemma LastSetSnoc(updates: seq<Update>, u: Update, p: PeerId, v: Value)
    ensures LastSet(updates + [u], p, v) <==> if u.peer == p then u.change == Set(v) else LastSet(updates, p, v)
  {
    var all := updates + [u];
    assert forall i: nat | i < |updates| :: all[i] == updates[i];
    assert all[|updates|] == u;
    if u.peer == p {
      assert LastAbout(all, p, |updates|);
    } else if LastSet(updates, p, v) {
      var i: nat :| LastAbout(updates, p, i) && updates[i].change == Set(v);
      assert LastAbout(all, p, i);
    }
    if u.peer != p && LastSet(all, p, v) {
      var i: nat :| LastAbout(all, p, i) && all[i].change == Set(v);
      assert LastAbout(updates, p, i);
    }
  }

  /** For every list of updates: a peer is shown with a value if and only if the last update about it set that value. */
  lemma {:induction false} ShownExactly(updates: seq<Update>, p: PeerId, v: Value)
    ensures p in Folded(updates) && Folded(updates)[p] == v <==> LastSet(updates, p, v)
  {
    if updates != [] {
      var before, last := updates[..|updates| - 1], updates[|updates| - 1];
      ShownExactly(before, p, v);
      LastSetSnoc(before, last, p, v);
      assert updates == before + [last];
    }
  }

  /** The updates among the operations, in order. */
  function UpdatesOf(ops: seq<Op>): seq<Update> {
    if ops == [] then []
    else
      var last := ops[|ops| - 1];
      UpdatesOf(ops[..|ops| - 1]) + if last.UpdatePresence? then [Update(last.peer, last.change)] else []
  }

  /** After every run the presence map is the fold of the updates, and the 64-bit revision counts them. */
  lemma {:induction false} PresenceOfRun(ops: seq<Op>)
    ensures var s := Run(ops);
            && s.updates == UpdatesOf(ops) && s.presence == Folded(s.updates)
            && s.revision == |s.updates| % 0x1_0000_0000_0000_0000
  {
    if ops != [] {
      var before, last := ops[..|ops| - 1], ops[|ops| - 1];
      PresenceOfRun(before);
      if last.UpdatePresence? {
        FoldedSnoc(Run(before).updates, Update(last.peer, last.change));
        CountsOn(Run(before).revision, |Run(before).updates|);
      }
    }
  }

  lemma CountsOn(r: nat, n: nat)
    requires r == n % 0x1_0000_0000_0000_0000
    ensures NextRevision(r) == (n + 1) % 0x1_0000_0000_0000_0000
  {}

  /**
   * Told by the operations alone, for every run and every peer: the live map shows `p` with `v`
   * if and only if the last update of `p` set `v`, and so does every message received, for the
   * updates up to its revision.
   */
  lemma PresenceIsLastSet(ops: seq<Op>, p: PeerId, v: Value)
    ensures p in Run(ops).presence && Run(ops).presence[p] == v <==> LastSet(UpdatesOf(ops), p, v)
  {
    PresenceOfRun(ops);
    ShownExactly(UpdatesOf(ops), p, v);
  }

  lemma MessageShowsLastSet(ops: seq<Op>, c: ChanId, i: nat, p: PeerId, v: Value)
    requires |UpdatesOf(ops)| < REVISIONS && c < |Run(ops).channels| && i < |Received(Run(ops).channels[c])|
    ensures var m := Received(Run(ops).channels[c])[i];
            && m.revision <= |UpdatesOf(ops)|
            && (p in m.meta && m.meta[p] == v <==> LastSet(UpdatesOf(ops)[..m.revision], p, v))
  {
    PresenceOfRun(ops);
    UpdatesCounted(ops);
    MessagesAreSnapshots(ops, c);
    var m := Received(Run(ops).channels[c])[i];
    ShownExactly(UpdatesOf(ops)[..m.revision], p, v);
  }

  lemma {:induction false} UpdatesCounted(ops: seq<Op>)
    ensures |UpdatesOf(ops)| == UpdateCount(ops)
  {
    if ops != [] {
      UpdatesCounted(ops[..|ops| - 1]);
    }
  }

  // ---- a listener that does not read ----

  function ListenThen(p: PeerId, updates: seq<Update>): seq<Op> {
    [AddListener(p)] +
    seq(|updates|, (i: nat) requires i < |updates| => UpdatePresence(updates[i].peer, updates[i].change))
  }

  /** After `n` updates its channel holds the first 32 messages and has lost every one from the 33rd on. */
  ghost predicate Unread(s: Session, p: PeerId, n: nat) {
    && s.listeners == map[p := 0] && |s.channels| == 1 && s.revision == n
    && var ch := s.channels[0];
    && |ch.queued| == (if n <= 32 then n else 32) && |ch.dropped| == n - |ch.queued|
    && (forall i: nat | i < |ch.queued| :: ch.queued[i].revision == i + 1)
    && (forall i: nat | i < |ch.dropped| :: ch.dropped[i] == 33 + i)
  }

  lemma UnreadStep(s: Session, p: PeerId, n: nat, u: Update)
    requires Unread(s, p, n) && n + 1 < REVISIONS
    ensures Unread(Apply(s, UpdatePresence(u.peer, u.change)), p, n + 1)
  {
    var s' := Apply(s, UpdatePresence(u.peer, u.change));
    assert s.listeners[p] == 0;
    assert 0 in s.listeners.Values;
    assert s'.channels[0] == SendIfRoom(s.channels[0], Message(s'.revision, s'.presence));
  }

  lemma {:induction false} UnreadQueue(p: PeerId, updates: seq<Update>)
    requires |updates| < REVISIONS
    ensures Unread(Run(ListenThen(p, updates)), p, |updates|)
  {
    var ops := ListenThen(p, updates);
    if updates == [] {
      assert ops == [] + [AddListener(p)];
      RunSnoc([], AddListener(p));
    } else {
      var before, u := updates[..|updates| - 1], updates[|updates| - 1];
      UnreadQueue(p, before);
      assert ops == ListenThen(p, before) + [UpdatePresence(u.peer, u.change)];
      RunSnoc(ListenThen(p, before), UpdatePresence(u.peer, u.change));
      UnreadStep(Run(ListenThen(p, before)), p, |before|, u);
    }
  }

  lemma {:induction false} IncreasingAbove(revs: seq<nat>, low: nat, i: nat)
    requires Increasing(revs) && i < |revs| && forall r: nat | r in revs :: low < r
    ensures low + 1 + i <= revs[i]
  {
    assert revs[i] in revs;
    if i > 0 {
      IncreasingAbove(revs, low, i - 1);
    }
  }

  lemma {:induction false} IncreasingBelow(revs: seq<nat>, high: nat, i: nat)
    requires Increasing(revs) && i < |revs| && forall r: nat | r in revs :: r <= high
    ensures revs[i] + (|revs| - 1 - i) <= high
    decreases |revs| - i
  {
    assert revs[i] in revs;
    if i + 1 < |revs| {
      IncreasingBelow(revs, high, i + 1);
    }
  }

  ghost predicate GapFree(s: Session, c: Channel) {
    && |Received(c)| == End(s, c) - c.since
    && forall i: nat | i < |Received(c)| :: Received(c)[i].revision == c.since + 1 + i
  }

  /**
   * A listener sees every revision of its registration, in order and without gaps, exactly
   * when nothing was dropped for it.
   */
  lemma NoDropsNoGaps(ops: seq<Op>, c: ChanId)
    requires UpdateCount(ops) < REVISIONS && c < |Run(ops).channels|
    ensures var s := Run(ops); GapFree(s, s.channels[c]) <==> s.channels[c].dropped == []
  {
    RunKeeps(ops);
    var s := Run(ops);
    var ch := s.channels[c];
    var revs := Revisions(Received(ch));
    if ch.dropped == [] {
      forall i: nat | i < |Received(ch)| ensures Received(ch)[i].revision == ch.since + 1 + i {
        IncreasingAbove(revs, ch.since, i);
        IncreasingBelow(revs, End(s, ch), i);
        assert revs[i] == Received(ch)[i].revision;
      }
    }
  }

  /** The current revision can only be the last one received. */
  lemma LastRevision(revs: seq<nat>, r: nat)
    requires Increasing(revs) && forall x: nat | x in revs :: x <= r
    ensures r in revs <==> revs != [] && revs[|revs| - 1] == r
  {
    if r in revs {
      var i: nat :| i < |revs| && revs[i] == r;
      IncreasingBelow(revs, r, i);
    }
  }

  /**
   * The last message of a drained listener is the current revision, with the current
   * presence, exactly when the latest broadcast was made while it was registered and was
   * not dropped for it.
   */
  lemma DrainedIsCurrent(ops: seq<Op>, c: ChanId)
    requires UpdateCount(ops) < REVISIONS && c < |Run(ops).channels|
    requires Run(ops).channels[c].queued == [] && Run(ops).updates != []
    ensures var s := Run(ops);
            var ch := s.channels[c];
            (ch.read != [] && ch.read[|ch.read| - 1] == Message(s.revision, s.presence))
            <==> (ch.since < s.revision <= End(s, ch) && s.revision !in ch.dropped)
  {
    RunKeeps(ops);
    DrainedChannel(Run(ops), Run(ops).channels[c]);
  }

  lemma DrainedChannel(s: Session, ch: Channel)
    requires s.revision == |s.updates| && s.presence == Folded(s.updates)
    requires Snapshots(s, ch) && Accounted(s, ch) && ch.queued == []
    ensures (ch.read != [] && ch.read[|ch.read| - 1] == Message(s.revision, s.presence))
            <==> (ch.since < s.revision <= End(s, ch) && s.revision !in ch.dropped)
  {
    var revs := Revisions(Received(ch));
    assert Received(ch) == ch.read;
    LastRevision(revs, s.revision);
    if ch.read != [] {
      var last := Received(ch)[|ch.read| - 1];
      assert revs[|revs| - 1] == last.revision;
      assert s.updates[..s.revision] == s.updates;
    }
  }
}
