/**
 * The `Session` object: presence map and channels are mutable objects, a message holds a
 * reference to a copy of the map, and each method is proved against `PresenceModel`.
 */
module PresenceSession {
  import PM = PresenceModel

  /** A Go map of presence metadata. */
  class PresenceMap {
    var entries: map<PM.PeerId, PM.Value>

    constructor (entries: map<PM.PeerId, PM.Value>)
      ensures this.entries == entries
    {
      this.entries := entries;
    }
  }

  datatype Broadcast = Broadcast(kind: string, revision: nat, meta: PresenceMap)

  /** A channel of capacity 32; `index` is its place among all channels of the session. */
  class Chan {
    ghost const index: PM.ChanId
    var queue: seq<Broadcast>

    constructor (ghost index: PM.ChanId)
      ensures queue == [] && this.index == index
    {
      this.index := index;
      queue := [];
    }
  }

  /** What the maps held when they were copied; `Frozen` says they still do. */
  type Snapshots = map<PresenceMap, map<PM.PeerId, PM.Value>>

  /** The queue holds the messages of the model, each through a map of its own. */
  ghost predicate Shows(taken: Snapshots, queue: seq<Broadcast>, messages: seq<PM.Message>) {
    && |queue| == |messages|
    && forall k: nat | k < |queue| ::
         && queue[k].meta in taken && messages[k] == PM.Message(queue[k].revision, taken[queue[k].meta])
         && queue[k].kind == "presence"
  }

  lemma ShowsSnoc(taken: Snapshots, queue: seq<Broadcast>, messages: seq<PM.Message>, b: Broadcast)
    requires Shows(taken, queue, messages) && b.meta in taken && b.kind == "presence"
    ensures Shows(taken, queue + [b], messages + [PM.Message(b.revision, taken[b.meta])])
  {}

  ghost predicate AllShow(taken: Snapshots, chans: seq<Chan>, channels: seq<PM.Channel>)
    reads chans
  {
    |chans| == |channels| && forall i: nat | i < |chans| :: Shows(taken, chans[i].queue, channels[i].queued)
  }

  lemma AllShowMore(taken: Snapshots, chans: seq<Chan>, channels: seq<PM.Channel>,
                    copy: PresenceMap, entries: map<PM.PeerId, PM.Value>)
    requires AllShow(taken, chans, channels) && copy !in taken
    ensures AllShow(taken[copy := entries], chans, channels)
  {}

  /** A send that finds room, or none, does to the queue what it does in the model. */
  lemma OfferShows(taken: Snapshots, queue: seq<Broadcast>, c: PM.Channel, b: Broadcast)
    requires Shows(taken, queue, c.queued) && b.meta in taken && b.kind == "presence"
    ensures Shows(taken, queue + (if |queue| < PM.CAPACITY then [b] else []),
                  PM.SendIfRoom(c, PM.Message(b.revision, taken[b.meta])).queued)
  {
    ShowsSnoc(taken, queue, c.queued, b);
  }

  /** No snapshot has changed since it was taken, and none is the live map. */
  ghost predicate Frozen(presence: PresenceMap, taken: Snapshots)
    reads taken.Keys
  {
    presence !in taken && forall p | p in taken :: p.entries == taken[p]
  }

  /** The peer has what it was set to, or nothing if erased; every other peer has what it had. */
  ghost predicate ChangedOnly(before: map<PM.PeerId, PM.Value>, after: map<PM.PeerId, PM.Value>,
                              peer: PM.PeerId, meta: PM.Change)
  {
    && (peer in after <==> meta.Set?) && (meta.Set? ==> after[peer] == meta.value)
    && (forall p | p != peer :: p in after <==> p in before)
    && (forall p | p != peer && p in before && p in after :: after[p] == before[p])
  }

  lemma OneEntryChanges(before: map<PM.PeerId, PM.Value>, peer: PM.PeerId, meta: PM.Change)
    ensures ChangedOnly(before, PM.Changed(before, PM.Update(peer, meta)), peer, meta)
  {}

  /** The channels are distinct, and the listeners are those of the model. */
  ghost predicate Wired(chans: seq<Chan>, listeners: map<PM.PeerId, Chan>, model: PM.Session) {
    && |chans| == |model.channels|
    && (forall i: nat | i < |chans| :: chans[i].index == i)
    && listeners.Keys == model.listeners.Keys
    && (forall p | p in model.listeners :: model.listeners[p] < |chans| && listeners[p] == chans[model.listeners[p]])
  }

  /** Registering a new channel shows what it shows in the model. */
  lemma ShowsAdded(taken: Snapshots, chans: seq<Chan>, model: PM.Session, peer: PM.PeerId, ch: Chan)
    requires AllShow(taken, chans, model.channels)
    ensures ch.queue == [] ==> AllShow(taken, chans + [ch], PM.Apply(model, PM.AddListener(peer)).channels)
  {}

  lemma WiredAdded(chans: seq<Chan>, listeners: map<PM.PeerId, Chan>, model: PM.Session, peer: PM.PeerId, ch: Chan)
    requires Wired(chans, listeners, model)
    ensures ch.index == |chans| ==> Wired(chans + [ch], listeners[peer := ch], PM.Apply(model, PM.AddListener(peer)))
  {}

  /** An update leaves listeners and channels where they are, and broadcasts the changed map. */
  lemma WiredUpdated(chans: seq<Chan>, listeners: map<PM.PeerId, Chan>, model: PM.Session,
                     peer: PM.PeerId, meta: PM.Change)
    requires Wired(chans, listeners, model)
    ensures var next := PM.Apply(model, PM.UpdatePresence(peer, meta));
            && Wired(chans, listeners, next)
            && next.presence == PM.Changed(model.presence, PM.Update(peer, meta))
            && next.revision == PM.NextRevision(model.revision)
            && next.channels == PM.Broadcast(model.channels, model.listeners, PM.Message(next.revision, next.presence))
  {}

  class Session {
    const presence: PresenceMap
    var presenceRevision: nat
    var broadcastListeners: map<PM.PeerId, Chan>

    ghost var ops: seq<PM.Op>
    ghost var model: PM.Session
    ghost var chans: seq<Chan>
    ghost var taken: Snapshots

    ghost predicate Valid()
      reads this, presence, chans, taken.Keys
    {
      && model == PM.Run(ops)
      && presence.entries == model.presence && presenceRevision == model.revision
      && Frozen(presence, taken) && Wired(chans, broadcastListeners, model)
      && AllShow(taken, chans, model.channels)
    }

    constructor ()
      ensures Valid() && ops == [] && chans == [] && fresh(presence)
    {
      presence := new PresenceMap(map[]);
      presenceRevision, broadcastListeners := 0, map[];
      ops, model, chans, taken := [], PM.EMPTY, [], map[];
    }

    ghost method Record(op: PM.Op)
      requires model == PM.Run(ops)
      modifies this`ops, this`model
      ensures model == PM.Run(ops) && ops == old(ops) + [op] && model == PM.Apply(old(model), op)
    {
      PM.RunSnoc(ops, op);
      ops, model := ops + [op], PM.Apply(model, op);
    }

    /** Offers `msg` to every listener, in whatever order the map is ranged over. */
    method SendToAll(msg: Broadcast)
      requires forall p, q | p in broadcastListeners && q in broadcastListeners && p != q ::
                 broadcastListeners[p] != broadcastListeners[q]
      modifies broadcastListeners.Values
      ensures forall p | p in broadcastListeners ::
                broadcastListeners[p].queue ==
                old(broadcastListeners[p].queue) +
                (if |old(broadcastListeners[p].queue)| < PM.CAPACITY then [msg] else [])
    {
      var rest := broadcastListeners.Keys;
      while rest != {}
        invariant rest <= broadcastListeners.Keys
        invariant forall p | p in rest :: broadcastListeners[p].queue == old(broadcastListeners[p].queue)
        invariant forall p | p in broadcastListeners.Keys - rest ::
                    broadcastListeners[p].queue ==
                    old(broadcastListeners[p].queue) +
                    (if |old(broadcastListeners[p].queue)| < PM.CAPACITY then [msg] else [])
      {
        var id :| id in rest;
        var ch := broadcastListeners[id];
        if |ch.queue| < PM.CAPACITY {
          ch.queue := ch.queue + [msg];
        }
        rest := rest - {id};
      }
    }

    /** The fan-out of `msg` is the model's broadcast of the message it carries. */
    method Publish(msg: Broadcast)
      requires Wired(chans, broadcastListeners, model) && AllShow(taken, chans, model.channels) && msg.meta in taken
      requires PM.ListenersInv(model) && msg.kind == "presence"
      modifies chans
      ensures AllShow(taken, chans,
                      PM.Broadcast(model.channels, model.listeners, PM.Message(msg.revision, taken[msg.meta])))
    {
      assert forall p | p in broadcastListeners ::
          model.channels[broadcastListeners[p].index].until == PM.Registered(p);
      SendToAll(msg);
      ghost var channels := PM.Broadcast(model.channels, model.listeners, PM.Message(msg.revision, taken[msg.meta]));
      forall i: nat | i < |chans| ensures Shows(taken, chans[i].queue, channels[i].queued) {
        assert old(Shows(taken, chans[i].queue, model.channels[i].queued));
        if i in model.listeners.Values {
          var p :| p in model.listeners && model.listeners[p] == i;
          assert chans[i] == broadcastListeners[p];
          OfferShows(taken, old(chans[i].queue), model.channels[i], msg);
        } else {
          assert forall p | p in model.listeners :: broadcastListeners[p].index != i;
        }
      }
    }

    /** A copy of the live map, which later changes to that map do not reach. */
    method TakeSnapshot() returns (copy: PresenceMap)
      requires Frozen(presence, taken) && AllShow(taken, chans, model.channels)
      modifies this`taken
      ensures Frozen(presence, taken) && AllShow(taken, chans, model.channels)
      ensures fresh(copy) && taken == old(taken)[copy := presence.entries]
    {
      copy := new PresenceMap(presence.entries);
      AllShowMore(taken, chans, model.channels, copy, copy.entries);
      taken := taken[copy := copy.entries];
    }

    /** Counts the revision and changes the map in place. */
    method ChangePresence(peer: PM.PeerId, meta: PM.Change)
      requires Frozen(presence, taken)
      modifies this`presenceRevision, presence
      ensures Frozen(presence, taken) && presence.entries == PM.Changed(old(presence.entries), PM.Update(peer, meta))
      ensures presenceRevision == PM.NextRevision(old(presenceRevision))
    {
      presenceRevision := PM.NextRevision(presenceRevision);
      match meta
      case Set(v) => presence.entries := presence.entries[peer := v];
      case Erase => presence.entries := presence.entries - {peer};
    }

    /** Copies the live map and offers the copy to every listener. */
    method PublishSnapshot(ghost next: PM.Session)
      requires Frozen(presence, taken) && Wired(chans, broadcastListeners, model)
      requires AllShow(taken, chans, model.channels)
      requires model == PM.Run(ops)
      requires next.channels ==
               PM.Broadcast(model.channels, model.listeners, PM.Message(presenceRevision, presence.entries))
      modifies this`taken, chans
      ensures Frozen(presence, taken) && AllShow(taken, chans, next.channels)
    {
      PM.ListenersOfRun(ops);
      var currentPresence := TakeSnapshot();
      var msg := Broadcast("presence", presenceRevision, currentPresence);
      Publish(msg);
    }

    /** Changes the presence of a peer and broadcasts a copy of the whole map. */
    method UpdatePresenceMetaForPeer(peer: PM.PeerId, meta: PM.Change)
      requires Valid()
      modifies this, presence, chans
      ensures Valid() && ops == old(ops) + [PM.UpdatePresence(peer, meta)]
      ensures chans == old(chans) && broadcastListeners == old(broadcastListeners)
      ensures ChangedOnly(old(presence.entries), presence.entries, peer, meta)
    {
      ghost var next := PM.Apply(model, PM.UpdatePresence(peer, meta));
      WiredUpdated(chans, broadcastListeners, model, peer, meta);
      OneEntryChanges(presence.entries, peer, meta);
      ChangePresence(peer, meta);
      PublishSnapshot(next);
      Record(PM.UpdatePresence(peer, meta));
    }

    /** Whatever the channel: it takes the place of the one the peer had. A join brings a new and empty one. */
    method BroadcastAddListener(peer: PM.PeerId, ch: Chan)
      requires Valid()
      modifies this
      ensures broadcastListeners == old(broadcastListeners)[peer := ch] && presenceRevision == old(presenceRevision)
      ensures ch.index == |old(chans)| && ch.queue == [] ==>
                Valid() && ops == old(ops) + [PM.AddListener(peer)] && chans == old(chans) + [ch]
    {
      ShowsAdded(taken, chans, model, peer, ch);
      WiredAdded(chans, broadcastListeners, model, peer, ch);
      broadcastListeners := broadcastListeners[peer := ch];
      chans := chans + [ch];
      Record(PM.AddListener(peer));
    }

    method BroadcastRemoveListener(peer: PM.PeerId)
      requires Valid()
      modifies this
      ensures Valid() && ops == old(ops) + [PM.RemoveListener(peer)] && chans == old(chans)
      ensures peer !in broadcastListeners
    {
      broadcastListeners := broadcastListeners - {peer};
      Record(PM.RemoveListener(peer));
    }

    /** The listener of the `c`-th channel takes its next message, whose map is still the snapshot it was. */
    method Receive(ghost c: PM.ChanId, ch: Chan) returns (msg: Broadcast)
      requires Valid() && c < |chans| && ch == chans[c] && ch.queue != []
      modifies this`ops, this`model, ch
      ensures Valid() && ops == old(ops) + [PM.Read(c)]
      ensures msg == old(ch.queue)[0] && ch.queue == old(ch.queue)[1..] && msg.kind == "presence"
      ensures PM.Run(old(ops)).channels[c].queued != []
      ensures PM.Message(msg.revision, msg.meta.entries) == PM.Run(old(ops)).channels[c].queued[0]
    {
      msg := ch.queue[0];
      ch.queue := ch.queue[1..];
      Record(PM.Read(c));
    }

    /** What the listener of channel `c` has read, by the reference. */
    ghost function ReadFrom(c: PM.ChanId): seq<PM.Message>
      reads this
    {
      PM.ReadOf(PM.Run(ops), c)
    }

    /** The same as values, and with nothing to take from an empty channel. */
    method ReceiveIfAny(ghost c: PM.ChanId, ch: Chan) returns (sent: seq<PM.Message>)
      requires Valid() && c < |chans| && ch == chans[c]
      modifies this`ops, this`model, ch
      ensures Valid() && ops == old(ops) + [PM.Read(c)]
      ensures |sent| == (if old(ch.queue) == [] then 0 else 1)
      ensures ReadFrom(c) == old(ReadFrom(c)) + sent
    {
      PM.RunSnoc(ops, PM.Read(c));
      if ch.queue == [] {
        Record(PM.Read(c));
        sent := [];
      } else {
        var msg := Receive(c, ch);
        sent := [PM.Message(msg.revision, msg.meta.entries)];
      }
    }

    /** Any operation but reading; a listener is added with a channel of its own. */
    method Perform(op: PM.Op)
      requires Valid() && !op.Read?
      modifies this, presence, chans
      ensures Valid() && ops == old(ops) + [op] && old(chans) <= chans
      ensures forall k: nat | |old(chans)| <= k < |chans| :: fresh(chans[k])
    {
      match op
      case UpdatePresence(p, change) => UpdatePresenceMetaForPeer(p, change);
      case AddListener(p) =>
        var ch := new Chan(|chans|);
        BroadcastAddListener(p, ch);
      case RemoveListener(p) => BroadcastRemoveListener(p);
    }
  }

  /**
   * On the object: the presence map shows a peer with a value if and only if the last update of
   * that peer, told by the operations alone, set that value; the revision counts the updates.
   */
  lemma SessionShowsLastSet(s: Session, p: PM.PeerId, v: PM.Value)
    requires s.Valid()
    ensures p in s.presence.entries && s.presence.entries[p] == v <==> PM.LastSet(PM.UpdatesOf(s.ops), p, v)
    ensures s.presenceRevision == |PM.UpdatesOf(s.ops)| % 0x1_0000_0000_0000_0000
  {
    PM.PresenceOfRun(s.ops);
    PM.PresenceIsLastSet(s.ops, p, v);
  }
}
