/**
 * Buffering of remote ICE candidates in the client: a candidate may be handed to a peer
 * connection only once its remote description is set.
 */
module Trickle {

  type Candidate = string

  // ---- the subscriber: handlers run one at a time ----

  /** `received` is everything the signalling channel delivered, in order. */
  datatype Subscriber = Subscriber(
    remote: bool, applied: seq<Candidate>, buffered: seq<Candidate>, received: seq<Candidate>)

  /** `Describe(ok)` is an offer from the server, and whether setting it succeeded. */
  datatype SubEvent = SubTrickle(c: Candidate) | Describe(ok: bool)

  function OnSub(s: Subscriber, e: SubEvent): Subscriber {
    match e
    case SubTrickle(c) =>
      if s.remote then s.(applied := s.applied + [c], received := s.received + [c])
      else s.(buffered := s.buffered + [c], received := s.received + [c])
    case Describe(ok) =>
      if ok then s.(remote := true, applied := s.applied + s.buffered, buffered := []) else s
  }

  function RunSub(events: seq<SubEvent>): Subscriber {
    if events == [] then Subscriber(false, [], [], [])
    else OnSub(RunSub(events[..|events| - 1]), events[|events| - 1])
  }

  /** The candidates that came with the events, in order. */
  function SubCandidates(events: seq<SubEvent>): seq<Candidate> {
    if events == [] then []
    else
      var last := events[|events| - 1];
      SubCandidates(events[..|events| - 1]) + if last.SubTrickle? then [last.c] else []
  }

  /**
   * Over every run, told by its events: nothing is applied before a description was accepted,
   * nothing is buffered after, and what has been applied followed by what is buffered are the
   * candidates that came, in order.
   */
  lemma {:induction false} SubscriberInOrder(events: seq<SubEvent>)
    ensures var s := RunSub(events);
            && s.received == SubCandidates(events) && (s.remote <==> Describe(true) in events)
            && s.applied + s.buffered == SubCandidates(events)
            && (Describe(true) !in events ==> s.applied == []) && (Describe(true) in events ==> s.buffered == [])
  {
    if events != [] {
      var before, last := events[..|events| - 1], events[|events| - 1];
      SubscriberInOrder(before);
      assert events == before + [last];
    }
  }

  // ---- the publisher: candidates may arrive while a join is under way ----

  /**
   * `pending` is what the flush of the join under way has still to apply, `joins` how many
   * flushes were begun. The buffer is never cleared. `early` are the candidates that came
   * with the description set but before the first flush was through.
   */
  datatype Publisher = Publisher(
    remote: bool,
    applied: seq<Candidate>,
    buffered: seq<Candidate>,
    received: seq<Candidate>,
    pending: seq<Candidate>,
    joins: nat,
    early: seq<Candidate>)

  datatype PubEvent = PubTrickle(c: Candidate) | SetRemote | BeginFlush | FlushNext

  /** A flush begins after its join has set the description, and ends before the next join. */
  predicate PubEnabled(p: Publisher, e: PubEvent) {
    match e
    case PubTrickle(_) => true
    case SetRemote => true
    case BeginFlush => p.remote && p.pending == []
    case FlushNext => p.pending != []
  }

  /** The first flush has yet to begin or to end. */
  predicate FirstFlushOpen(p: Publisher) {
    p.joins == 0 || (p.joins == 1 && p.pending != [])
  }

  function OnPub(p: Publisher, e: PubEvent): Publisher
    requires PubEnabled(p, e)
  {
    match e
    case PubTrickle(c) =>
      if p.remote then
        p.(applied := p.applied + [c], received := p.received + [c],
           early := if FirstFlushOpen(p) then p.early + [c] else p.early)
      else p.(buffered := p.buffered + [c], received := p.received + [c])
    case SetRemote => p.(remote := true)
    case BeginFlush => p.(pending := p.buffered, joins := p.joins + 1)
    case FlushNext => p.(applied := p.applied + [p.pending[0]], pending := p.pending[1..])
  }

  const FRESH := Publisher(false, [], [], [], [], 0, [])

  predicate PubRuns(events: seq<PubEvent>)
    decreases |events|, 0
  {
    events == [] ||
    (PubRuns(events[..|events| - 1]) && PubEnabled(RunPub(events[..|events| - 1]), events[|events| - 1]))
  }

  function RunPub(events: seq<PubEvent>): Publisher
    requires PubRuns(events)
    decreases |events|, 1
  {
    if events == [] then FRESH else OnPub(RunPub(events[..|events| - 1]), events[|events| - 1])
  }

  function Times(n: nat, m: multiset<Candidate>): multiset<Candidate> {
    if n == 0 then multiset{} else m + Times(n - 1, m)
  }

  /** Conservation: every flush applies the whole buffer once more. */
  ghost predicate Conserved(p: Publisher) {
    && multiset(p.applied) + multiset(p.pending) + multiset(p.buffered)
       == multiset(p.received) + Times(p.joins, multiset(p.buffered))
    && (!p.remote ==> p.applied == [] && p.pending == [] && p.joins == 0)
  }

  lemma FlushOnceMore(a: multiset<Candidate>, b: multiset<Candidate>, r: multiset<Candidate>, n: nat)
    requires a + multiset{} + b == r + Times(n, b)
    ensures a + b + b == r + Times(n + 1, b)
  {
    assert r + (b + Times(n, b)) == (r + Times(n, b)) + b;
  }

  lemma NothingElse(b: multiset<Candidate>, r: multiset<Candidate>)
    requires multiset{} + multiset{} + b == r + multiset{}
    ensures b == r
  {
    assert multiset{} + multiset{} + b == b;
    assert r + multiset{} == r;
  }

  lemma ConservedTrickle(p: Publisher, c: Candidate)
    requires Conserved(p)
    ensures Conserved(OnPub(p, PubTrickle(c)))
  {
    var q := OnPub(p, PubTrickle(c));
    assert multiset(q.received) == multiset(p.received) + multiset{c};
    if p.remote {
      assert multiset(q.applied) == multiset(p.applied) + multiset{c};
      calc {
        multiset(q.applied) + multiset(q.pending) + multiset(q.buffered);
        (multiset(p.applied) + multiset(p.pending) + multiset(p.buffered)) + multiset{c};
        multiset(q.received) + Times(q.joins, multiset(q.buffered));
      }
    } else {
      assert multiset(q.buffered) == multiset(p.buffered) + multiset{c};
      assert Times(p.joins, multiset(p.buffered)) == Times(q.joins, multiset(q.buffered)) == multiset{};
      assert multiset(p.applied) == multiset(p.pending) == multiset{};
      NothingElse(multiset(p.buffered), multiset(p.received));
    }
  }

  lemma ConservedStep(p: Publisher, e: PubEvent)
    requires Conserved(p) && PubEnabled(p, e)
    ensures Conserved(OnPub(p, e))
  {
    match e
    case PubTrickle(c) =>
      ConservedTrickle(p, c);
    case SetRemote =>
    case BeginFlush =>
      FlushOnceMore(multiset(p.applied), multiset(p.buffered), multiset(p.received), p.joins);
    case FlushNext =>
      assert p.pending == [p.pending[0]] + p.pending[1..];
  }

  /** The candidates that came with the events, in order. */
  function PubCandidatesOf(events: seq<PubEvent>): seq<Candidate> {
    if events == [] then []
    else
      var last := events[|events| - 1];
      PubCandidatesOf(events[..|events| - 1]) + if last.PubTrickle? then [last.c] else []
  }

  function Flushes(events: seq<PubEvent>): nat {
    if events == [] then 0
    else Flushes(events[..|events| - 1]) + if events[|events| - 1].BeginFlush? then 1 else 0
  }

  /** The candidates that came before any description was set. */
  function BeforeRemote(events: seq<PubEvent>): seq<Candidate> {
    if events == [] then []
    else
      var before, last := events[..|events| - 1], events[|events| - 1];
      BeforeRemote(before) + if last.PubTrickle? && SetRemote !in before then [last.c] else []
  }

  /** Over every run: what counts as received, buffered, described and flushed is what the events say. */
  lemma {:induction false} PublisherTold(events: seq<PubEvent>)
    requires PubRuns(events)
    ensures var p := RunPub(events);
            && p.received == PubCandidatesOf(events) && p.buffered == BeforeRemote(events)
            && (p.remote <==> SetRemote in events) && p.joins == Flushes(events)
  {
    if events != [] {
      var before, last := events[..|events| - 1], events[|events| - 1];
      PublisherTold(before);
      assert events == before + [last];
    }
  }

  lemma {:induction false} CandidatesConcat(a: seq<PubEvent>, b: seq<PubEvent>)
    ensures PubCandidatesOf(a + b) == PubCandidatesOf(a) + PubCandidatesOf(b)
  {
    if b == [] {
      assert a + b == a;
    } else {
      var before, last := b[..|b| - 1], b[|b| - 1];
      CandidatesConcat(a, before);
      assert (a + b)[..|a + b| - 1] == a + before && (a + b)[|a + b| - 1] == last;
    }
  }

  lemma {:induction false} PublisherConserves(events: seq<PubEvent>)
    requires PubRuns(events)
    ensures Conserved(RunPub(events))
  {
    if events != [] {
      PublisherConserves(events[..|events| - 1]);
      ConservedStep(RunPub(events[..|events| - 1]), events[|events| - 1]);
    }
  }

  lemma {:induction false} TimesSize(n: nat, m: multiset<Candidate>)
    ensures |Times(n, m)| == n * |m|
  {
    if n > 0 {
      TimesSize(n - 1, m);
      assert n * |m| == |m| + (n - 1) * |m|;
    }
  }

  lemma {:induction false} TimesNothing(n: nat)
    ensures Times(n, multiset{}) == multiset{}
  {
    if n > 0 {
      TimesNothing(n - 1);
    }
  }

  lemma OnlyOnce(n: nat, size: nat)
    requires 0 < size && size == n * size
    ensures n == 1
  {
    assert (n - 1) * size == 0;
    assert n >= 2 ==> (n - 1) * size >= size;
  }

  lemma SameWhenFlushedOnce(a: multiset<Candidate>, b: multiset<Candidate>, r: multiset<Candidate>, n: nat)
    requires a + b == r + Times(n, b)
    ensures n == 1 || b == multiset{} ==> a == r
  {
    TimesNothing(n);
    assert n == 1 ==> Times(n, b) == b + Times(0, b) == b;
    assert a == (a + b) - b;
    assert r == (r + b) - b;
  }

  lemma FlushedOnceWhenSame(a: multiset<Candidate>, b: multiset<Candidate>, n: nat)
    requires a + b == a + Times(n, b) && b != multiset{}
    ensures n == 1
  {
    TimesSize(n, b);
    assert |a| + |b| == |a + b| == |a| + n * |b|;
    OnlyOnce(n, |b|);
  }

  /**
   * Between flushes every candidate received has been applied exactly once if and only if
   * one join has flushed, or there was nothing to flush: a second join would apply the
   * buffer again.
   */
  lemma AppliedExactlyOnce(events: seq<PubEvent>)
    requires PubRuns(events) && RunPub(events).pending == []
    ensures multiset(RunPub(events).applied) == multiset(PubCandidatesOf(events)) <==>
            Flushes(events) == 1 || BeforeRemote(events) == []
  {
    PublisherConserves(events);
    PublisherTold(events);
    var p := RunPub(events);
    var a, b, r := multiset(p.applied), multiset(p.buffered), multiset(p.received);
    assert a + b == a + multiset(p.pending) + b;
    SameWhenFlushedOnce(a, b, r, p.joins);
    assert p.buffered != [] ==> p.buffered[0] in b;
    if a == r && p.buffered != [] {
      FlushedOnceWhenSame(a, b, p.joins);
    }
  }

  // ---- the order in which the publisher's candidates are applied ----

  /**
   * While at most one flush has begun: the candidates came as the buffer, then the early
   * ones, then the rest; an early one gets ahead of whatever the flush has still to apply.
   */
  ghost predicate Ordered(p: Publisher) {
    var n := |p.buffered| + |p.early|;
    && p.joins <= 1 && n <= |p.received| && p.received[..n] == p.buffered + p.early
    && (FirstFlushOpen(p) ==> |p.received| == n)
    && (!p.remote ==> p.early == [])
    && (p.joins == 0 ==> p.applied == p.early && p.pending == [])
    && (p.joins == 1 ==>
          && p.remote
          && |p.applied| + |p.pending| == |p.received|
          && |p.pending| <= |p.buffered| && p.pending == p.buffered[|p.buffered| - |p.pending|..]
          && (p.early == [] ==> p.applied + p.pending == p.received)
          && (p.buffered == [] ==> p.applied == p.received)
          && (p.early != [] && p.buffered != [] && p.pending == [] ==>
                p.applied[n - 1] == p.buffered[|p.buffered| - 1]))
  }

  lemma OrderedTrickle(p: Publisher, c: Candidate)
    requires Ordered(p)
    ensures Ordered(OnPub(p, PubTrickle(c)))
  {
    var q := OnPub(p, PubTrickle(c));
    var n := |p.buffered| + |p.early|;
    assert p.remote && !FirstFlushOpen(p) ==> q.received[..n] == p.received[..n];
    assert FirstFlushOpen(p) ==> q.received == p.buffered + p.early + [c];
  }

  lemma OrderedFlush(p: Publisher)
    requires Ordered(p) && p.pending != []
    ensures Ordered(OnPub(p, FlushNext))
  {
    var q := OnPub(p, FlushNext);
    assert p.pending[0] == p.buffered[|p.buffered| - |p.pending|];
    assert q.applied + q.pending == p.applied + p.pending;
    assert p.joins == 1;
  }

  lemma OrderedStep(p: Publisher, e: PubEvent)
    requires Ordered(p) && PubEnabled(p, e) && OnPub(p, e).joins <= 1
    ensures Ordered(OnPub(p, e))
  {
    match e
    case PubTrickle(c) => OrderedTrickle(p, c);
    case SetRemote =>
    case BeginFlush =>
    case FlushNext => OrderedFlush(p);
  }

  lemma {:induction false} OrderedRun(events: seq<PubEvent>)
    requires PubRuns(events) && RunPub(events).joins <= 1
    ensures Ordered(RunPub(events))
  {
    if events != [] {
      OrderedRun(events[..|events| - 1]);
      OrderedStep(RunPub(events[..|events| - 1]), events[|events| - 1]);
    }
  }

  /**
   * After the flush of the only join, distinct candidates were applied in the order they
   * were received if and only if none came between setting the description and the end of
   * the flush, or there was nothing to flush.
   */
  lemma OrderPreserved(events: seq<PubEvent>)
    requires PubRuns(events)
    requires Flushes(events) == 1 && RunPub(events).pending == []
    requires var r := PubCandidatesOf(events); forall i, j :: 0 <= i < j < |r| ==> r[i] != r[j]
    ensures RunPub(events).applied == PubCandidatesOf(events) <==>
            RunPub(events).early == [] || BeforeRemote(events) == []
  {
    PublisherTold(events);
    OrderedRun(events);
    var p := RunPub(events);
    if p.early != [] && p.buffered != [] {
      var b, n := |p.buffered|, |p.buffered| + |p.early|;
      assert p.received[..n][b - 1] == p.buffered[b - 1];
    }
  }

  // ---- runs that go wrong ----

  /** A candidate that slips in before the flush gets ahead of one received earlier. */
  lemma OutOfOrder(a: Candidate, b: Candidate)
    ensures var events := [PubTrickle(a), SetRemote, PubTrickle(b), BeginFlush, FlushNext];
            && PubRuns(events) && RunPub(events).joins == 1 && RunPub(events).pending == []
            && RunPub(events).received == [a, b] && RunPub(events).applied == [b, a]
  {
    var e1 := [PubTrickle(a)];
    var e2 := e1 + [SetRemote];
    var e3 := e2 + [PubTrickle(b)];
    var e4 := e3 + [BeginFlush];
    RunPubExtends([], PubTrickle(a));
    RunPubExtends(e1, SetRemote);
    RunPubExtends(e2, PubTrickle(b));
    RunPubExtends(e3, BeginFlush);
    RunPubExtends(e4, FlushNext);
    assert [] + [PubTrickle(a)] == e1;
    assert e4 + [FlushNext] == [PubTrickle(a), SetRemote, PubTrickle(b), BeginFlush, FlushNext];
  }

  /** A second join applies again what the first had flushed. */
  lemma AppliedTwice(a: Candidate)
    ensures var events := [PubTrickle(a), SetRemote, BeginFlush, FlushNext, SetRemote, BeginFlush, FlushNext];
            && PubRuns(events) && RunPub(events).joins == 2 && RunPub(events).pending == []
            && RunPub(events).received == [a] && RunPub(events).applied == [a, a]
  {
    var e1 := [PubTrickle(a)];
    var e2 := e1 + [SetRemote];
    var e3 := e2 + [BeginFlush];
    var e4 := e3 + [FlushNext];
    var e5 := e4 + [SetRemote];
    var e6 := e5 + [BeginFlush];
    RunPubExtends([], PubTrickle(a));
    RunPubExtends(e1, SetRemote);
    RunPubExtends(e2, BeginFlush);
    RunPubExtends(e3, FlushNext);
    RunPubExtends(e4, SetRemote);
    RunPubExtends(e5, BeginFlush);
    RunPubExtends(e6, FlushNext);
    assert [] + [PubTrickle(a)] == e1;
    assert e6 + [FlushNext] == [PubTrickle(a), SetRemote, BeginFlush, FlushNext, SetRemote, BeginFlush, FlushNext];
  }

  // ---- the client ----

  const PUBLISH := 0
  const SUBSCRIBE := 1

  class PeerConnection {
    var remote: bool
    var applied: seq<Candidate>

    constructor ()
      ensures !remote && applied == []
    {
      remote, applied := false, [];
    }

    method SetRemoteDescription(ok: bool)
      modifies this`remote
      ensures remote == (old(remote) || ok)
    {
      if ok {
        remote := true;
      }
    }

    /** A candidate is refused before the remote description is set, so callers must not try. */
    method AddICECandidate(c: Candidate)
      requires remote
      modifies this`applied
      ensures applied == old(applied) + [c]
    {
      applied := applied + [c];
    }
  }

  class Transport {
    const pc: PeerConnection
    var candidates: seq<Candidate>

    constructor ()
      ensures fresh(pc) && !pc.remote && pc.applied == [] && candidates == []
    {
      pc := new PeerConnection();
      candidates := [];
    }

    method ApplyCandidates()
      requires pc.remote
      modifies pc`applied
      ensures pc.applied == old(pc.applied) + candidates
    {
      for i := 0 to |candidates|
        invariant pc.applied == old(pc.applied) + candidates[..i]
      {
        pc.AddICECandidate(candidates[i]);
      }
    }
  }

  function Trickles(cs: seq<Candidate>): seq<PubEvent> {
    seq(|cs|, i requires 0 <= i < |cs| => PubTrickle(cs[i]))
  }

  /** The flush of `n` candidates, with the trickles of `between(i)` handled before the i-th is applied. */
  function FlushEvents(n: nat, between: nat -> seq<Candidate>): seq<PubEvent> {
    if n == 0 then [] else FlushEvents(n - 1, between) + Trickles(between(n - 1)) + [FlushNext]
  }

  /** All that is handled in the course of a flush of `n` candidates, in order. */
  function InFlush(n: nat, between: nat -> seq<Candidate>): seq<Candidate> {
    if n == 0 then [] else InFlush(n - 1, between) + between(n - 1)
  }

  lemma {:induction false} TricklesCarry(cs: seq<Candidate>)
    ensures PubCandidatesOf(Trickles(cs)) == cs
  {
    if cs != [] {
      var before := cs[..|cs| - 1];
      TricklesCarry(before);
      assert Trickles(cs)[..|cs| - 1] == Trickles(before);
      assert cs == before + [cs[|cs| - 1]];
    }
  }

  lemma {:induction false} FlushCarries(n: nat, between: nat -> seq<Candidate>)
    ensures PubCandidatesOf(FlushEvents(n, between)) == InFlush(n, between)
  {
    if n > 0 {
      FlushCarries(n - 1, between);
      TricklesCarry(between(n - 1));
      var front := FlushEvents(n - 1, between) + Trickles(between(n - 1));
      CandidatesConcat(FlushEvents(n - 1, between), Trickles(between(n - 1)));
      CandidatesConcat(front, [FlushNext]);
      assert [FlushNext][..0] == [];
      assert PubCandidatesOf([FlushNext]) == [];
    }
  }

  lemma CarryMore(events: seq<PubEvent>, cs: seq<Candidate>)
    ensures PubCandidatesOf(events + Trickles(cs)) == PubCandidatesOf(events) + cs
  {
    TricklesCarry(cs);
    CandidatesConcat(events, Trickles(cs));
  }

  lemma CarryNothing(events: seq<PubEvent>, e: PubEvent)
    requires !e.PubTrickle?
    ensures PubCandidatesOf(events + [e]) == PubCandidatesOf(events)
  {
    assert (events + [e])[..|events|] == events;
  }

  /** What a join that goes well brings: what came while it waited, before its flush and in the course of it. */
  lemma JoinCarries(events: seq<PubEvent>, waiting: seq<Candidate>, after: seq<Candidate>, n: nat,
                    between: nat -> seq<Candidate>)
    ensures PubCandidatesOf(events + Trickles(waiting)
                            + [SetRemote] + Trickles(after) + [BeginFlush] + FlushEvents(n, between))
            == PubCandidatesOf(events) + waiting + after + InFlush(n, between)
  {
    FlushCarries(n, between);
    var e1 := events + Trickles(waiting);
    var e2 := e1 + [SetRemote] + Trickles(after);
    CarryMore(events, waiting);
    CarryNothing(e1, SetRemote);
    CarryMore(e1 + [SetRemote], after);
    CarryNothing(e2, BeginFlush);
    CandidatesConcat(e2 + [BeginFlush], FlushEvents(n, between));
  }

  lemma {:induction false} RunPubExtends(events: seq<PubEvent>, e: PubEvent)
    requires PubRuns(events) && PubEnabled(RunPub(events), e)
    ensures PubRuns(events + [e]) && RunPub(events + [e]) == OnPub(RunPub(events), e)
  {
    assert (events + [e])[..|events|] == events;
  }

  lemma {:induction false} RunSubExtends(events: seq<SubEvent>, e: SubEvent)
    ensures RunSub(events + [e]) == OnSub(RunSub(events), e)
  {
    assert (events + [e])[..|events|] == events;
  }

  /** How far a join gets before an error ends it. */
  datatype JoinFault = NoFault | OfferFails | LocalFails | SignalFails | RemoteFails

  class Client {
    const pub: Transport
    const sub: Transport
    ghost var pubEvents: seq<PubEvent>
    ghost var subEvents: seq<SubEvent>

    ghost predicate Distinct()
      reads this
    {
      pub != sub && pub.pc != sub.pc
    }

    ghost predicate PubIs(p: Publisher)
      reads this, pub, pub.pc
    {
      p.remote == pub.pc.remote && p.applied == pub.pc.applied && p.buffered == pub.candidates
    }

    ghost predicate SubIs(s: Subscriber)
      reads this, sub, sub.pc
    {
      s.remote == sub.pc.remote && s.applied == sub.pc.applied && s.buffered == sub.candidates
    }

    /** Both transports are where their events lead. */
    ghost predicate Valid()
      reads this, pub, pub.pc, sub, sub.pc
    {
      Distinct() && PubRuns(pubEvents) && PubIs(RunPub(pubEvents)) && SubIs(RunSub(subEvents))
    }

    constructor ()
      ensures Valid() && pubEvents == [] && subEvents == []
      ensures fresh(pub) && fresh(pub.pc) && fresh(sub) && fresh(sub.pc)
    {
      pub := new Transport();
      sub := new Transport();
      pubEvents, subEvents := [], [];
    }

    /** A role that is neither of the two leaves no target, and the handler panics. */
    method SignalOnTrickle(role: int, c: Candidate) returns (panics: bool)
      requires Valid()
      modifies this, pub, pub.pc, sub, sub.pc
      ensures Valid()
      ensures panics <==> role != 0 && role != 1
      ensures pubEvents == old(pubEvents) + (if role == 0 then [PubTrickle(c)] else [])
      ensures subEvents == old(subEvents) + (if role == 1 then [SubTrickle(c)] else [])
    {
      if role == PUBLISH {
        PubCandidate(c);
        return false;
      } else if role == SUBSCRIBE {
        RunSubExtends(subEvents, SubTrickle(c));
        if sub.pc.remote {
          sub.pc.AddICECandidate(c);
        } else {
          sub.candidates := sub.candidates + [c];
        }
        subEvents := subEvents + [SubTrickle(c)];
        return false;
      }
      return true;
    }

    method PubCandidate(c: Candidate)
      requires Valid()
      modifies this`pubEvents, pub`candidates, pub.pc`applied
      ensures Valid() && pubEvents == old(pubEvents) + [PubTrickle(c)]
      ensures old(pub.pc.remote) ==> pub.candidates == old(pub.candidates)
      ensures RunPub(pubEvents) == OnPub(old(RunPub(pubEvents)), PubTrickle(c))
    {
      RunPubExtends(pubEvents, PubTrickle(c));
      if pub.pc.remote {
        pub.pc.AddICECandidate(c);
      } else {
        pub.candidates := pub.candidates + [c];
      }
      pubEvents := pubEvents + [PubTrickle(c)];
    }

    /** The handlers of candidates that arrive for the publisher, run one after the other. */
    method PubCandidates(cs: seq<Candidate>)
      requires Valid()
      modifies this`pubEvents, pub`candidates, pub.pc`applied
      ensures Valid() && pubEvents == old(pubEvents) + Trickles(cs)
      ensures old(pub.pc.remote) ==> pub.candidates == old(pub.candidates)
      ensures RunPub(pubEvents).pending == old(RunPub(pubEvents).pending)
      ensures RunPub(pubEvents).joins == old(RunPub(pubEvents).joins)
    {
      for i := 0 to |cs|
        invariant Valid() && pubEvents == old(pubEvents) + Trickles(cs)[..i]
        invariant old(pub.pc.remote) ==> pub.candidates == old(pub.candidates)
        invariant RunPub(pubEvents).pending == old(RunPub(pubEvents).pending)
        invariant RunPub(pubEvents).joins == old(RunPub(pubEvents).joins)
      {
        PubCandidate(cs[i]);
      }
    }

    /** An offer from the server: set it, hand over the buffer in order, and empty the buffer. */
    method SignalOnNegotiate(ok: bool)
      requires Valid()
      modifies this`subEvents, sub`candidates, sub.pc
      ensures Valid() && subEvents == old(subEvents) + [Describe(ok)]
      ensures ok ==> sub.pc.applied == old(sub.pc.applied) + old(sub.candidates) && sub.candidates == []
    {
      RunSubExtends(subEvents, Describe(ok));
      subEvents := subEvents + [Describe(ok)];
      sub.pc.SetRemoteDescription(ok);
      if ok {
        sub.ApplyCandidates();
        sub.candidates := [];
      }
    }

    method PubDescribed()
      requires Valid()
      modifies this`pubEvents, pub.pc`remote
      ensures Valid() && pub.pc.remote && pubEvents == old(pubEvents) + [SetRemote]
      ensures RunPub(pubEvents) == OnPub(old(RunPub(pubEvents)), SetRemote)
    {
      RunPubExtends(pubEvents, SetRemote);
      pub.pc.SetRemoteDescription(true);
      pubEvents := pubEvents + [SetRemote];
    }

    /** Renegotiation sets the description again, and flushes nothing. */
    method PubNegotiationNeeded(fault: JoinFault)
      requires Valid()
      modifies this`pubEvents, pub.pc`remote
      ensures Valid()
      ensures pubEvents == old(pubEvents) + (if fault == NoFault then [SetRemote] else [])
    {
      if fault == NoFault {
        PubDescribed();
      }
    }

    method PubFlushNext(c: Candidate)
      requires Valid() && RunPub(pubEvents).pending != [] && c == RunPub(pubEvents).pending[0] && pub.pc.remote
      modifies this`pubEvents, pub.pc`applied
      ensures Valid() && pubEvents == old(pubEvents) + [FlushNext]
      ensures RunPub(pubEvents) == OnPub(old(RunPub(pubEvents)), FlushNext)
    {
      RunPubExtends(pubEvents, FlushNext);
      pub.pc.AddICECandidate(c);
      pubEvents := pubEvents + [FlushNext];
    }

    /** One round of the flush, after the candidates that slipped in before it. */
    method FlushRound(slipped: seq<Candidate>, c: Candidate)
      requires Valid() && pub.pc.remote
      requires RunPub(pubEvents).pending != [] && c == RunPub(pubEvents).pending[0]
      modifies this`pubEvents, pub`candidates, pub.pc`applied
      ensures Valid() && pub.candidates == old(pub.candidates)
      ensures pubEvents == old(pubEvents) + Trickles(slipped) + [FlushNext]
      ensures RunPub(pubEvents).pending == old(RunPub(pubEvents).pending)[1..]
      ensures RunPub(pubEvents).joins == old(RunPub(pubEvents).joins)
    {
      PubCandidates(slipped);
      PubFlushNext(c);
    }

    method BeginFlushing()
      requires Valid() && pub.pc.remote && RunPub(pubEvents).pending == []
      modifies this`pubEvents
      ensures Valid() && pubEvents == old(pubEvents) + [BeginFlush]
      ensures RunPub(pubEvents) == OnPub(old(RunPub(pubEvents)), BeginFlush)
    {
      RunPubExtends(pubEvents, BeginFlush);
      pubEvents := pubEvents + [BeginFlush];
    }

    method Flush(between: nat -> seq<Candidate>)
      requires Valid() && pub.pc.remote && RunPub(pubEvents).pending == []
      modifies this`pubEvents, pub`candidates, pub.pc`applied
      ensures Valid() && pub.candidates == old(pub.candidates) && RunPub(pubEvents).pending == []
      ensures pubEvents == old(pubEvents) + [BeginFlush] + FlushEvents(|pub.candidates|, between)
      ensures RunPub(pubEvents).joins == old(RunPub(pubEvents).joins) + 1
    {
      BeginFlushing();
      ghost var begun := pubEvents;
      var flushed := pub.candidates;
      for i := 0 to |flushed|
        invariant Valid() && pub.pc.remote && pub.candidates == flushed
        invariant RunPub(pubEvents).pending == flushed[i..]
        invariant RunPub(pubEvents).joins == old(RunPub(pubEvents).joins) + 1
        invariant pubEvents == begun + FlushEvents(i, between)
      {
        FlushRound(between(i), flushed[i]);
        Reassociate(begun, FlushEvents(i, between), Trickles(between(i)), [FlushNext]);
      }
    }

    method Connected(after: seq<Candidate>, between: nat -> seq<Candidate>)
      requires Valid() && RunPub(pubEvents).pending == []
      modifies this`pubEvents, pub`candidates, pub.pc
      ensures Valid() && RunPub(pubEvents).pending == [] && pub.candidates == old(pub.candidates)
      ensures pubEvents == old(pubEvents) + [SetRemote] + Trickles(after)
                           + [BeginFlush] + FlushEvents(|pub.candidates|, between)
      ensures RunPub(pubEvents).joins == old(RunPub(pubEvents).joins) + 1
    {
      PubDescribed();
      PubCandidates(after);
      Flush(between);
    }

    /**
     * Candidates of `waiting` are handled while the join waits for its answer, those of `after`
     * between setting the description and the flush, those of `between(i)` before the flush
     * applies its i-th. After a first join all that was received has been applied once.
     */
    method Join(fault: JoinFault, waiting: seq<Candidate>, after: seq<Candidate>, between: nat -> seq<Candidate>)
      returns (ok: bool)
      requires Valid() && RunPub(pubEvents).pending == []
      modifies this`pubEvents, pub`candidates, pub.pc
      ensures Valid() && RunPub(pubEvents).pending == []
      ensures ok <==> fault == NoFault
      ensures fault == OfferFails || fault == LocalFails ==> pubEvents == old(pubEvents)
      ensures fault == SignalFails || fault == RemoteFails ==> pubEvents == old(pubEvents) + Trickles(waiting)
      ensures ok ==>
                pubEvents == old(pubEvents) + Trickles(waiting)
                             + [SetRemote] + Trickles(after) + [BeginFlush] + FlushEvents(|pub.candidates|, between)
      ensures RunPub(pubEvents).joins == old(RunPub(pubEvents).joins) + (if ok then 1 else 0)
      ensures ok ==> PubCandidatesOf(pubEvents) == old(PubCandidatesOf(pubEvents))
                                                   + waiting + after + InFlush(|pub.candidates|, between)
      ensures ok && old(RunPub(pubEvents).joins) == 0 ==>
                multiset(pub.pc.applied) == multiset(PubCandidatesOf(pubEvents))
    {
      if fault == OfferFails || fault == LocalFails {
        return false;
      }
      PubCandidates(waiting);
      if fault == SignalFails || fault == RemoteFails {
        return false;
      }
      Connected(after, between);
      JoinCarries(old(pubEvents), waiting, after, |pub.candidates|, between);
      PublisherTold(pubEvents);
      AppliedExactlyOnce(pubEvents);
      return true;
    }
  }

  lemma Reassociate(a: seq<PubEvent>, b: seq<PubEvent>, c: seq<PubEvent>, d: seq<PubEvent>)
    ensures a + b + c + d == a + (b + c + d)
  {
  }
}
