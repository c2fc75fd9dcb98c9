/** The compositor pipeline: tracks come and go, and the videos among them share the canvas. */
module Compositor {
  import opened Layout

  type TrackId = string

  datatype Track = Track(id: TrackId, video: bool, mime: string)

  /** The codecs a pipeline can be built for, lower case. Note the misspelt one: "video/vp9" is not among them. */
  const CODECS: set<string> := {"audio/opus", "audio/g722", "video/vp8", "viode/vp9", "video/h264"}

  /** A pipeline panics on a track with any other codec, before anything has changed. */
  predicate Supported(t: Track) {
    t.mime in CODECS
  }

  /** Five codecs by name, whatever the kind of the track; not the one the misspelt name was meant for. */
  lemma SupportedExactly(t: Track)
    ensures Supported(t) <==>
            || t.mime == "audio/opus" || t.mime == "audio/g722" || t.mime == "video/vp8"
            || t.mime == "viode/vp9" || t.mime == "video/h264"
    ensures !Supported(Track(t.id, true, "video/vp9"))
  {
    assert "video/vp9"[2] != "viode/vp9"[2] && "video/vp9"[6] == 'v' && "video/vp9"[8] == '9' && "video/vp8"[8] == '8';
    assert |"video/vp9"| == 9 && |"audio/opus"| == 10 && |"audio/g722"| == 10 && |"video/h264"| == 10;
  }

  // ---- what a run of tracks should show ----

  /** `End` is the end of a track of that id and kind, which need not be the one bound last. */
  datatype Op = Add(track: Track) | End(id: TrackId, video: bool)

  /** The op binds `id` to a new bin. */
  predicate Binds(op: Op, id: TrackId) {
    op.Add? && Supported(op.track) && op.track.id == id
  }

  predicate Ends(op: Op, id: TrackId) {
    op.End? && op.id == id
  }

  /** Op `i` made an input bin. */
  predicate Made(ops: seq<Op>, i: nat) {
    i < |ops| && ops[i].Add? && Supported(ops[i].track)
  }

  /** Nothing happens to `id` between ops `i` and `j`. */
  ghost predicate Untouched(ops: seq<Op>, i: nat, j: nat, id: TrackId) {
    forall k: nat | i < k < j && k < |ops| :: !Binds(ops[k], id) && !Ends(ops[k], id)
  }

  ghost predicate NoEnd(ops: seq<Op>, i: nat, j: nat, id: TrackId) {
    forall k: nat | i < k < j && k < |ops| :: !Ends(ops[k], id)
  }

  /** The bin made by op `i` was removed: the next thing to happen to its id was the end of a track of its kind. */
  ghost predicate Ended(ops: seq<Op>, i: nat)
    requires Made(ops, i)
  {
    var t := ops[i].track;
    exists j: nat :: i < j < |ops| && ops[j] == End(t.id, t.video) && Untouched(ops, i, j, t.id)
  }

  /** Op `i` made a video bin that was not removed. */
  ghost predicate Shown(ops: seq<Op>, i: nat) {
    Made(ops, i) && ops[i].track.video && !Ended(ops, i)
  }

  /** The bin made by op `i` is the one its track id stands for: not bound again and not ended since. */
  ghost predicate Current(ops: seq<Op>, i: nat) {
    Made(ops, i) && Untouched(ops, i, |ops|, ops[i].track.id)
  }

  /** A video was added under `id` and the id has not ended since. */
  ghost predicate VideoSinceEnd(ops: seq<Op>, id: TrackId) {
    exists i: nat :: Made(ops, i) && ops[i].track.video && ops[i].track.id == id && NoEnd(ops, i, |ops|, id)
  }

  // ---- the bookkeeping as values ----

  /** An input bin is named by the op that made it. */
  datatype Bin = Bin(serial: nat, video: bool)

  /** `pads` are the bins linked to the video mixer, in the order of its sink pads. */
  datatype Mix = Mix(bins: map<TrackId, Bin>, callbacks: set<TrackId>, pads: seq<nat>)

  function Without(serials: seq<nat>, serial: nat): seq<nat> {
    if serials == [] then []
    else
      var last := serials[|serials| - 1];
      Without(serials[..|serials| - 1], serial) + if last == serial then [] else [last]
  }

  /**
   * Op number `serial`. The end of a track whose id is not bound is not a run of the pipeline.
   * A mixer does not release a pad that is not its own, so the end of a track of the other
   * kind leaves the pad where it is.
   */
  function Apply(m: Mix, op: Op, serial: nat): Mix {
    match op
    case Add(t) =>
      if !Supported(t) then m
      else if t.video then Mix(m.bins[t.id := Bin(serial, true)], m.callbacks + {t.id}, m.pads + [serial])
      else m.(bins := m.bins[t.id := Bin(serial, false)])
    case End(id, video) =>
      if id !in m.bins then m
      else Mix(m.bins - {id}, m.callbacks - {id},
               if m.bins[id].video && video then Without(m.pads, m.bins[id].serial) else m.pads)
  }

  const EMPTY := Mix(map[], {}, [])

  function Run(ops: seq<Op>): Mix {
    if ops == [] then EMPTY else Apply(Run(ops[..|ops| - 1]), ops[|ops| - 1], |ops| - 1)
  }

  /** Every track that ends was bound. */
  predicate Sound(ops: seq<Op>) {
    ops == [] ||
    (Sound(ops[..|ops| - 1]) && (ops[|ops| - 1].End? ==> ops[|ops| - 1].id in Run(ops[..|ops| - 1]).bins))
  }

  // ---- the bookkeeping shows what it should ----

  ghost predicate BinsInv(m: Mix, ops: seq<Op>) {
    && (forall id | id in m.bins ::
          Current(ops, m.bins[id].serial) && ops[m.bins[id].serial].track.id == id
          && ops[m.bins[id].serial].track.video == m.bins[id].video)
    && (forall i: nat | Current(ops, i) :: ops[i].track.id in m.bins && m.bins[ops[i].track.id].serial == i)
  }

  ghost predicate Increasing(pads: seq<nat>) {
    forall i: nat, j: nat | i < j < |pads| :: pads[i] < pads[j]
  }

  ghost predicate PadsInv(m: Mix, ops: seq<Op>) {
    Increasing(m.pads) && forall i: nat :: i in m.pads <==> Shown(ops, i)
  }

  ghost predicate CallbacksInv(m: Mix, ops: seq<Op>) {
    forall id :: id in m.callbacks <==> VideoSinceEnd(ops, id)
  }

  ghost predicate Inv(m: Mix, ops: seq<Op>) {
    BinsInv(m, ops) && PadsInv(m, ops) && CallbacksInv(m, ops)
  }

  lemma {:induction false} InWithout(serials: seq<nat>, serial: nat)
    ensures forall x: nat :: x in Without(serials, serial) <==> x in serials && x != serial
    ensures Increasing(serials) ==> Increasing(Without(serials, serial))
  {
    if serials != [] {
      var before, last := serials[..|serials| - 1], serials[|serials| - 1];
      InWithout(before, serial);
      assert serials == before + [last];
      if Increasing(serials) {
        assert forall x: nat | x in Without(before, serial) :: x < last by {
          assert forall x: nat | x in before :: x < last;
        }
        IncreasingSnoc(Without(before, serial), last);
      }
    }
  }

  lemma IncreasingSnoc(pads: seq<nat>, last: nat)
    ensures Increasing(pads) && (forall x: nat | x in pads :: x < last) ==> Increasing(pads + [last])
  {
    assert forall i: nat | i < |pads| :: pads[i] in pads;
  }

  lemma CurrentSnoc(ops: seq<Op>, op: Op, i: nat)
    ensures Current(ops + [op], i) <==>
            if i < |ops| then Current(ops, i) && !Binds(op, ops[i].track.id) && !Ends(op, ops[i].track.id)
            else i == |ops| && op.Add? && Supported(op.track)
  {
    var all := ops + [op];
    assert forall k: nat | k < |ops| :: all[k] == ops[k];
    if i < |ops| && Made(ops, i) {
      assert all[|ops|] == op;
    }
  }

  /** A bin not removed yet is removed by the end of a track of its kind if its id stands for it. */
  lemma EndedSnoc(ops: seq<Op>, op: Op, i: nat)
    requires Made(ops, i)
    ensures Ended(ops + [op], i) <==>
            Ended(ops, i) || (Current(ops, i) && op == End(ops[i].track.id, ops[i].track.video))
  {
    var all, t := ops + [op], ops[i].track;
    assert forall k: nat | k < |ops| :: all[k] == ops[k];
    if Ended(ops, i) {
      var j: nat :| i < j < |ops| && ops[j] == End(t.id, t.video) && Untouched(ops, i, j, t.id);
      assert all[j] == ops[j] && Untouched(all, i, j, t.id);
    }
    if Current(ops, i) && op == End(t.id, t.video) {
      assert all[|ops|] == op && Untouched(all, i, |ops|, t.id);
    }
    if Ended(all, i) {
      var j: nat :| i < j < |all| && all[j] == End(t.id, t.video) && Untouched(all, i, j, t.id);
      assert Untouched(ops, i, j, t.id);
    }
  }

  lemma VideoSinceEndSnoc(ops: seq<Op>, op: Op, id: TrackId)
    ensures VideoSinceEnd(ops + [op], id) <==>
            (VideoSinceEnd(ops, id) && !Ends(op, id)) || (Binds(op, id) && op.track.video)
  {
    var all := ops + [op];
    assert forall k: nat | k < |ops| :: all[k] == ops[k];
    if VideoSinceEnd(ops, id) && !Ends(op, id) {
      var i: nat :| Made(ops, i) && ops[i].track.video && ops[i].track.id == id && NoEnd(ops, i, |ops|, id);
      assert Made(all, i) && all[i] == ops[i];
    }
    if Binds(op, id) && op.track.video {
      assert Made(all, |ops|) && all[|ops|] == op;
    }
    if VideoSinceEnd(all, id) {
      var i: nat :| Made(all, i) && all[i].track.video && all[i].track.id == id && NoEnd(all, i, |all|, id);
      if i < |ops| {
        assert Made(ops, i) && all[|ops|] == op;
      }
    }
  }

  lemma BinsKept(m: Mix, ops: seq<Op>, op: Op)
    requires BinsInv(m, ops)
    ensures BinsInv(Apply(m, op, |ops|), ops + [op])
  {
    var m', all := Apply(m, op, |ops|), ops + [op];
    forall i: nat ensures Current(all, i) <==>
            if i < |ops| then Current(ops, i) && !Binds(op, ops[i].track.id) && !Ends(op, ops[i].track.id)
            else i == |ops| && op.Add? && Supported(op.track)
    {
      CurrentSnoc(ops, op, i);
    }
    assert forall k: nat | k < |ops| :: all[k] == ops[k];
    assert all[|ops|] == op;
  }

  lemma PadsKept(m: Mix, ops: seq<Op>, op: Op)
    requires BinsInv(m, ops) && PadsInv(m, ops)
    ensures PadsInv(Apply(m, op, |ops|), ops + [op])
  {
    var m', all := Apply(m, op, |ops|), ops + [op];
    forall i: nat | i < |ops|
      ensures Shown(all, i) <==> Shown(ops, i) && !(Current(ops, i) && op == End(ops[i].track.id, true))
    {
      assert all[i] == ops[i];
      if Made(ops, i) {
        EndedSnoc(ops, op, i);
      }
    }
    assert all[|ops|] == op;
    NewPad(ops, op);
    IncreasingSnoc(m.pads, |ops|);
    if op.End? && op.id in m.bins {
      InWithout(m.pads, m.bins[op.id].serial);
    }
  }

  lemma NewPad(ops: seq<Op>, op: Op)
    ensures Shown(ops + [op], |ops|) <==> op.Add? && Supported(op.track) && op.track.video
  {
  }

  lemma CallbacksKept(m: Mix, ops: seq<Op>, op: Op)
    requires BinsInv(m, ops) && CallbacksInv(m, ops) && (op.End? ==> op.id in m.bins)
    ensures CallbacksInv(Apply(m, op, |ops|), ops + [op])
  {
    forall id ensures VideoSinceEnd(ops + [op], id) <==>
            (VideoSinceEnd(ops, id) && !Ends(op, id)) || (Binds(op, id) && op.track.video)
    {
      VideoSinceEndSnoc(ops, op, id);
    }
  }

  /**
   * Over every run, told by its ops alone: a track id stands for the last bin made for it and
   * not ended; the pads are the video bins not removed, in the order they were made; and a
   * callback is there for exactly the ids under which a video was added since their end.
   */
  lemma {:induction false} PadsAreSurvivors(ops: seq<Op>)
    requires Sound(ops)
    ensures Inv(Run(ops), ops)
  {
    if ops != [] {
      var before, last := ops[..|ops| - 1], ops[|ops| - 1];
      PadsAreSurvivors(before);
      assert ops == before + [last];
      BinsKept(Run(before), before, last);
      PadsKept(Run(before), before, last);
      CallbacksKept(Run(before), before, last);
    }
  }

  // ---- ids that are used again ----

  /**
   * The bin made by op `i` was left behind: its id was bound to another bin before it ended,
   * or a track of the other kind ended under it.
   */
  ghost predicate Orphaned(ops: seq<Op>, i: nat)
    requires Made(ops, i)
  {
    var t := ops[i].track;
    exists k: nat :: i < k < |ops| && Untouched(ops, i, k, t.id)
                     && (Binds(ops[k], t.id) || ops[k] == End(t.id, !t.video))
  }

  lemma {:induction false} FirstTouch(ops: seq<Op>, i: nat, k: nat, id: TrackId) returns (first: nat)
    requires i < k < |ops| && (Binds(ops[k], id) || Ends(ops[k], id))
    ensures i < first <= k && (Binds(ops[first], id) || Ends(ops[first], id)) && Untouched(ops, i, first, id)
    decreases k
  {
    if j: nat :| i < j < k && (Binds(ops[j], id) || Ends(ops[j], id)) {
      first := FirstTouch(ops, i, j, id);
    } else {
      first := k;
    }
  }

  /** Of two first touches neither comes before the other. */
  lemma OneFirstTouch(ops: seq<Op>, i: nat, j: nat, k: nat, id: TrackId)
    requires i < j < |ops| && i < k < |ops| && Untouched(ops, i, j, id) && Untouched(ops, i, k, id)
    requires (Binds(ops[j], id) || Ends(ops[j], id)) && (Binds(ops[k], id) || Ends(ops[k], id))
    ensures j == k
  {
  }

  lemma OrphanedIsLeft(ops: seq<Op>, i: nat)
    requires Made(ops, i) && Orphaned(ops, i)
    ensures !Ended(ops, i) && !Current(ops, i)
  {
    var t := ops[i].track;
    var k: nat :| i < k < |ops| && (Binds(ops[k], t.id) || ops[k] == End(t.id, !t.video)) && Untouched(ops, i, k, t.id);
    forall j: nat | i < j < |ops| && ops[j] == End(t.id, t.video) ensures !Untouched(ops, i, j, t.id) {
      if Untouched(ops, i, j, t.id) {
        OneFirstTouch(ops, i, j, k, t.id);
      }
    }
  }

  /** A bin is no longer what its id stands for, yet not removed, exactly when it was left behind in that way. */
  lemma LeftBehindExactly(ops: seq<Op>, i: nat)
    requires Made(ops, i)
    ensures !Ended(ops, i) && !Current(ops, i) <==> Orphaned(ops, i)
  {
    var id := ops[i].track.id;
    if Orphaned(ops, i) {
      OrphanedIsLeft(ops, i);
    } else if !Current(ops, i) {
      var k: nat :| i < k < |ops| && (Binds(ops[k], id) || Ends(ops[k], id));
      var first := FirstTouch(ops, i, k, id);
    }
  }

  /** Its pad then stays on the canvas in every continuation. */
  lemma OrphanedForever(ops: seq<Op>, more: seq<Op>, i: nat)
    requires Made(ops, i) && Orphaned(ops, i)
    ensures Made(ops + more, i) && Orphaned(ops + more, i)
    ensures ops[i].track.video ==> Shown(ops + more, i)
  {
    var all, t := ops + more, ops[i].track;
    assert forall k: nat | k < |ops| :: all[k] == ops[k];
    var k: nat :| i < k < |ops| && (Binds(ops[k], t.id) || ops[k] == End(t.id, !t.video)) && Untouched(ops, i, k, t.id);
    assert all[k] == ops[k] && all[i] == ops[i] && Untouched(all, i, k, t.id);
    LeftBehindExactly(all, i);
  }

  /** No bin was left behind, as when track ids are never used twice. */
  ghost predicate NoneOrphaned(ops: seq<Op>) {
    forall i: nat | Made(ops, i) && ops[i].track.video :: !Orphaned(ops, i)
  }

  /**
   * Every pad is that of a track still bound if and only if no video bin was left behind; and
   * then the callbacks are exactly those of the bound videos.
   */
  lemma PadsAreBoundExactly(ops: seq<Op>)
    requires Sound(ops)
    ensures (forall i: nat | i in Run(ops).pads :: Current(ops, i)) <==> NoneOrphaned(ops)
    ensures NoneOrphaned(ops) ==>
              forall id :: id in Run(ops).callbacks <==> id in Run(ops).bins && Run(ops).bins[id].video
  {
    PadsAreSurvivors(ops);
    forall i: nat | Made(ops, i) ensures !Ended(ops, i) && !Current(ops, i) <==> Orphaned(ops, i) {
      LeftBehindExactly(ops, i);
    }
    if NoneOrphaned(ops) {
      forall id ensures VideoSinceEnd(ops, id) <==> id in Run(ops).bins && Run(ops).bins[id].video {
        SinceEndIsBound(Run(ops), ops, id);
      }
    }
  }

  lemma SinceEndIsBound(m: Mix, ops: seq<Op>, id: TrackId)
    requires BinsInv(m, ops) && NoneOrphaned(ops)
    ensures VideoSinceEnd(ops, id) <==> id in m.bins && m.bins[id].video
  {
    if VideoSinceEnd(ops, id) {
      var i: nat :| Made(ops, i) && ops[i].track.video && ops[i].track.id == id && NoEnd(ops, i, |ops|, id);
      LeftBehindExactly(ops, i);
      assert !Ended(ops, i);
      assert Current(ops, i);
    }
  }

  /** A video added again under its id: the first pad has no track any more, and stays. */
  lemma VideoLeftBehind(t: Track)
    requires Supported(t) && t.video
    ensures var ops := [Add(t), Add(t)];
            Sound(ops) && Made(ops, 0) && Orphaned(ops, 0) && Run(ops).pads == [0, 1] && !Current(ops, 0)
  {
    var one, ops := [Add(t)], [Add(t), Add(t)];
    assert ops[..1] == one && one[..0] == [];
    assert Run(one) == Apply(EMPTY, Add(t), 0);
    assert Binds(ops[1], t.id) && Untouched(ops, 0, 1, t.id);
  }

  // ---- the pipeline ----

  /** Every pad shows its place in the grid for this many pads. */
  ghost predicate LaidOut(pads: seq<Pad>)
    reads pads
  {
    GridFor(|pads|).Chosen? &&
    var g := GridFor(|pads|).grid;
    forall i: nat | i < |pads| :: pads[i].tile == Placed(i, WIDTH, WIDTH / g.cols, HEIGHT / g.rows)
  }

  ghost predicate Numbers(pads: seq<Pad>, serials: seq<nat>) {
    |pads| == |serials| && forall i: nat | i < |pads| :: pads[i].bin == serials[i]
  }

  ghost predicate AllDifferent(pads: seq<Pad>) {
    forall i: nat, j: nat | i < j < |pads| :: pads[i] != pads[j]
  }

  method Relayout(pads: seq<Pad>)
    requires |pads| <= 16 && AllDifferent(pads)
    modifies pads
    ensures LaidOut(pads)
  {
    GridFits(|pads|);
    var g := GridFor(|pads|).grid;
    LayOut(pads, WIDTH, HEIGHT, g);
  }

  /** The pads that are left when that of bin `serial` is released. */
  method Release(pads: seq<Pad>, serial: nat) returns (left: seq<Pad>)
    requires AllDifferent(pads)
    ensures AllDifferent(left) && |left| <= |pads| && forall i: nat | i < |left| :: left[i] in pads
    ensures forall serials | Numbers(pads, serials) :: Numbers(left, Without(serials, serial))
  {
    left := [];
    for i := 0 to |pads|
      invariant AllDifferent(left) && |left| <= i && forall p | p in left :: p in pads[..i]
      invariant forall serials | Numbers(pads, serials) :: Numbers(left, Without(serials[..i], serial))
    {
      forall serials | Numbers(pads, serials)
        ensures Numbers(left + (if pads[i].bin == serial then [] else [pads[i]]), Without(serials[..i + 1], serial))
      {
        assert serials[..i + 1][..i] == serials[..i];
      }
      assert forall j: nat | j < i :: pads[..i][j] == pads[j] != pads[i];
      assert pads[i] !in left;
      if pads[i].bin != serial {
        left := left + [pads[i]];
      }
      assert pads[..i + 1] == pads[..i] + [pads[i]];
    }
    assert pads[..|pads|] == pads && forall i: nat | i < |left| :: left[i] in left;
    forall serials | Numbers(pads, serials) ensures Numbers(left, Without(serials, serial)) {
      assert serials[..|pads|] == serials;
    }
  }

  class CompositorPipeline {
    var trackBins: map<TrackId, Bin>
    var keyframeCallbacks: set<TrackId>
    var sinkpads: seq<Pad>
    var nextBin: nat

    ghost var ops: seq<Op>

    ghost predicate Valid()
      reads this, sinkpads
    {
      && Sound(ops) && nextBin == |ops|
      && trackBins == Run(ops).bins && keyframeCallbacks == Run(ops).callbacks && Numbers(sinkpads, Run(ops).pads)
      && AllDifferent(sinkpads) && LaidOut(sinkpads)
    }

    constructor ()
      ensures Valid() && ops == []
    {
      trackBins, keyframeCallbacks, sinkpads, nextBin, ops := map[], {}, [], 0, [];
    }

    /** A new track; `panicked` tells that its codec is not one a pipeline can be built for. */
    method AddInputTrack(t: Track) returns (panicked: bool)
      requires Valid() && |sinkpads| + (if t.video then 1 else 0) <= 16
      modifies this, sinkpads
      ensures Valid() && ops == old(ops) + [Add(t)] && panicked == !Supported(t)
      ensures panicked ==>
                trackBins == old(trackBins) && sinkpads == old(sinkpads)
                && keyframeCallbacks == old(keyframeCallbacks)
    {
      panicked := t.mime !in CODECS;
      assert (ops + [Add(t)])[..|ops|] == ops;
      ops := ops + [Add(t)];
      if !panicked {
        if t.video {
          var pad := new Pad(nextBin);
          sinkpads := sinkpads + [pad];
          Relayout(sinkpads);
          keyframeCallbacks := keyframeCallbacks + {t.id};
        }
        trackBins := trackBins[t.id := Bin(nextBin, t.video)];
      }
      nextBin := nextBin + 1;
    }

    method ReleasePad(serial: nat)
      requires AllDifferent(sinkpads) && |sinkpads| <= 16
      modifies this`sinkpads, sinkpads
      ensures AllDifferent(sinkpads) && LaidOut(sinkpads)
      ensures forall serials | Numbers(old(sinkpads), serials) :: Numbers(sinkpads, Without(serials, serial))
    {
      sinkpads := Release(sinkpads, serial);
      Relayout(sinkpads);
    }

    /** The end of a track. If its id is not bound a missing bin is dereferenced, and the process is gone. */
    method EndOfTrack(t: Track) returns (crashed: bool)
      requires Valid()
      modifies this, sinkpads
      ensures crashed <==> t.id !in old(trackBins)
      ensures crashed ==> Valid() && ops == old(ops)
      ensures !crashed ==> Valid() && ops == old(ops) + [End(t.id, t.video)]
    {
      crashed := t.id !in trackBins;
      if crashed {
        return;
      }
      assert (ops + [End(t.id, t.video)])[..|ops|] == ops;
      GridFits(|sinkpads|);
      if t.video {
        var bin := trackBins[t.id];
        if bin.video {
          ReleasePad(bin.serial);
        } else {
          Relayout(sinkpads);
        }
      }
      trackBins := trackBins - {t.id};
      keyframeCallbacks := keyframeCallbacks - {t.id};
      ops, nextBin := ops + [End(t.id, t.video)], nextBin + 1;
    }
  }

  lemma NumbersAsSet(pads: seq<Pad>, serials: seq<nat>, i: nat)
    requires Numbers(pads, serials)
    ensures (exists k: nat :: k < |pads| && pads[k].bin == i) <==> i in serials
  {
    if i in serials {
      var k: nat :| k < |serials| && serials[k] == i;
      assert pads[k].bin == i;
    }
  }

  /**
   * On the object: the pads are those of exactly the video bins not removed, in the order they
   * were made and in their places of the grid.
   */
  lemma CanvasShowsVideos(c: CompositorPipeline)
    requires c.Valid()
    ensures forall i: nat :: (exists k: nat :: k < |c.sinkpads| && c.sinkpads[k].bin == i) <==> Shown(c.ops, i)
    ensures forall j: nat, k: nat | j < k < |c.sinkpads| :: c.sinkpads[j].bin < c.sinkpads[k].bin
    ensures LaidOut(c.sinkpads)
  {
    PadsAreSurvivors(c.ops);
    forall i: nat ensures (exists k: nat :: k < |c.sinkpads| && c.sinkpads[k].bin == i) <==> i in Run(c.ops).pads {
      NumbersAsSet(c.sinkpads, Run(c.ops).pads, i);
    }
  }

  /** In numbers: the size and place of every pad on the 1920 by 1080 canvas. */
  lemma CanvasTiles(c: CompositorPipeline, side: nat)
    requires c.Valid() && Side(|c.sinkpads|, side)
    ensures forall i: nat | i < |c.sinkpads| ::
              c.sinkpads[i].tile ==
              Tile((i % side) * (1920 / side), (i / side) * (1080 / side), 1920 / side, 1080 / side)
  {
    VideosShown(|c.sinkpads|, side);
  }

  /**
   * And with no video id bound twice at a time, every pad is that of a bound track, and
   * exactly the bound videos have a callback.
   */
  lemma CanvasShowsBoundVideos(c: CompositorPipeline)
    requires c.Valid() && NoneOrphaned(c.ops)
    ensures forall k: nat | k < |c.sinkpads| :: Current(c.ops, c.sinkpads[k].bin)
    ensures forall id :: id in c.keyframeCallbacks <==> id in c.trackBins && c.trackBins[id].video
  {
    PadsAreBoundExactly(c.ops);
    forall k: nat | k < |c.sinkpads| ensures c.sinkpads[k].bin in Run(c.ops).pads {
      assert Run(c.ops).pads[k] in Run(c.ops).pads;
    }
  }
}
