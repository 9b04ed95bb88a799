/**
  Relay sessions over every run: which ports the relay's sockets hold, and when
  ports are lost.
 */
module RelaySessions {
  import opened Options
  import opened Calls
  import opened RelayPorts

  datatype Kind = Audio | Video

  /** A supported media section of an offer. */
  datatype Descriptor = Descriptor(kind: Kind, mediaIndex: nat, port: nat, active: bool)

  datatype Stream = Stream(kind: Kind, mediaIndex: nat, portA: nat, portB: nat)

  /** The sessions map, and the ports bound by the relay's sockets. */
  datatype Relay = Relay(sessions: map<CallId, seq<Stream>>, held: set<nat>)

  const Fresh := Relay(map[], {})

  function Ports(streams: seq<Stream>): set<nat> {
    (set s | s in streams :: s.portA) + (set s | s in streams :: s.portB)
  }

  function ActiveOnly(media: seq<Descriptor>): (r: seq<Descriptor>)
    ensures forall d :: d in r <==> d in media && d.active
  {
    if media == [] then []
    else (if media[0].active then [media[0]] else []) + ActiveOnly(media[1..])
  }

  /** Every stream has its own pair inside the range, away from `busy`, for its own descriptor. */
  predicate WellBound(c: Config, busy: set<nat>, media: seq<Descriptor>, streams: seq<Stream>) {
    && |streams| == |media|
    && (forall i :: 0 <= i < |streams| ==>
          && streams[i].kind == media[i].kind && streams[i].mediaIndex == media[i].mediaIndex
          && streams[i].portB == streams[i].portA + 1 && InPair(c, streams[i].portA)
          && FreePair(streams[i].portA, busy))
    && (forall i, j :: 0 <= i < j < |streams| ==>
          {streams[i].portA, streams[i].portB} !! {streams[j].portA, streams[j].portB})
  }

  /** `got` is what the operating system let an allocation have, all streams or nothing. */
  datatype Event =
    | Allocate(call: CallId, media: seq<Descriptor>, got: Option<seq<Stream>>)
    | Remove(call: CallId)

  predicate Legal(c: Config, r: Relay, e: Event) {
    e.Allocate? && e.got.Some? ==>
      ActiveOnly(e.media) != [] && WellBound(c, r.held, ActiveOnly(e.media), e.got.value)
  }

  function Next(r: Relay, e: Event): Relay {
    match e
    case Allocate(call, _, got) =>
      if got == None then r else Relay(r.sessions[call := got.value], r.held + Ports(got.value))
    case Remove(call) =>
      if call in r.sessions then Relay(r.sessions - {call}, r.held - Ports(r.sessions[call])) else r
  }

  function After(es: seq<Event>): Relay {
    if es == [] then Fresh else Next(After(es[..|es| - 1]), es[|es| - 1])
  }

  /** Every event is one the operating system could have produced where it happens. */
  predicate LegalRun(c: Config, es: seq<Event>) {
    es == [] || (LegalRun(c, es[..|es| - 1]) && Legal(c, After(es[..|es| - 1]), es[|es| - 1]))
  }

  /** The event replaces a live session, whose sockets nobody closes any more. */
  predicate Replaces(r: Relay, e: Event) {
    e.Allocate? && e.call in r.sessions && e.got.Some?
  }

  /** The ports lost to replaced sessions over a run. */
  function Leaked(es: seq<Event>): set<nat> {
    if es == [] then {}
    else
      var r, e := After(es[..|es| - 1]), es[|es| - 1];
      Leaked(es[..|es| - 1]) + if Replaces(r, e) then Ports(r.sessions[e.call]) else {}
  }

  predicate Owns(r: Relay, call: CallId, p: nat) {
    call in r.sessions && p in Ports(r.sessions[call])
  }

  /** The held ports are the disjoint union of the live sessions' ports and `leaked`. */
  ghost predicate Conserved(c: Config, r: Relay, leaked: set<nat>) {
    && (forall p :: p in r.held ==> c.min <= p <= c.max)
    && leaked <= r.held
    && (forall call :: call in r.sessions ==> r.sessions[call] != [])
    && (forall call, p :: Owns(r, call, p) ==> p in r.held && p !in leaked)
    && (forall p :: p in r.held && p !in leaked ==> exists call :: Owns(r, call, p))
    && (forall a, b, p :: Owns(r, a, p) && Owns(r, b, p) ==> a == b)
  }

  lemma WellBoundPorts(c: Config, busy: set<nat>, media: seq<Descriptor>, streams: seq<Stream>)
    requires WellBound(c, busy, media, streams)
    ensures forall p :: p in Ports(streams) ==> p !in busy && c.min <= p <= c.max
  {
    forall p | p in Ports(streams) ensures p !in busy && c.min <= p <= c.max {
      var s :| s in streams && (p == s.portA || p == s.portB);
      var i :| 0 <= i < |streams| && streams[i] == s;
    }
  }

  lemma ReplaceConserves(c: Config, r: Relay, leaked: set<nat>, call: CallId, streams: seq<Stream>)
    requires Conserved(c, r, leaked) && streams != []
    requires forall p :: p in Ports(streams) ==> p !in r.held && c.min <= p <= c.max
    ensures Conserved(c, Relay(r.sessions[call := streams], r.held + Ports(streams)),
                      leaked + if call in r.sessions then Ports(r.sessions[call]) else {})
  {
    var r' := Relay(r.sessions[call := streams], r.held + Ports(streams));
    var lost := if call in r.sessions then Ports(r.sessions[call]) else {};
    forall d, p ensures Owns(r', d, p) <==> if d == call then p in Ports(streams) else Owns(r, d, p) {
    }
    forall p | p in lost ensures Owns(r, call, p) {
    }
    forall p | p in r'.held && p !in leaked + lost ensures exists d :: Owns(r', d, p) {
      if p in Ports(streams) {
        assert Owns(r', call, p);
      } else {
        var d :| Owns(r, d, p);
        assert Owns(r', d, p);
      }
    }
  }

  lemma RemoveConserves(c: Config, r: Relay, leaked: set<nat>, call: CallId)
    requires Conserved(c, r, leaked) && call in r.sessions
    ensures Conserved(c, Relay(r.sessions - {call}, r.held - Ports(r.sessions[call])), leaked)
  {
    var r' := Relay(r.sessions - {call}, r.held - Ports(r.sessions[call]));
    forall d, p ensures Owns(r', d, p) <==> d != call && Owns(r, d, p) {
    }
    forall p | p in Ports(r.sessions[call]) ensures Owns(r, call, p) {
    }
    forall p | p in r'.held && p !in leaked ensures exists d :: Owns(r', d, p) {
      var d :| Owns(r, d, p);
      assert Owns(r', d, p);
    }
  }

  /**
    Over every run of allocations and removals the relay holds exactly the ports
    of its live sessions, each port in one session and inside the range, plus the
    ports of sessions that were replaced while live.
   */
  lemma {:induction false} PortsConserved(c: Config, es: seq<Event>)
    requires LegalRun(c, es)
    ensures Conserved(c, After(es), Leaked(es))
  {
    if es != [] {
      var before, e := es[..|es| - 1], es[|es| - 1];
      PortsConserved(c, before);
      var r := After(before);
      match e
      case Allocate(call, media, got) =>
        if got.Some? {
          WellBoundPorts(c, r.held, ActiveOnly(media), got.value);
          ReplaceConserves(c, r, Leaked(before), call, got.value);
        }
      case Remove(call) =>
        if call in r.sessions { RemoveConserves(c, r, Leaked(before), call); }
    }
  }

  /** No event of the run replaces a live session. */
  predicate NeverReplaces(es: seq<Event>) {
    es == [] || (NeverReplaces(es[..|es| - 1]) && !Replaces(After(es[..|es| - 1]), es[|es| - 1]))
  }

  /** Nothing leaks exactly when no live Call-ID is allocated again. */
  lemma {:induction false} LeaksOnlyByReplacing(c: Config, es: seq<Event>)
    requires LegalRun(c, es)
    ensures Leaked(es) == {} <==> NeverReplaces(es)
  {
    if es != [] {
      var before, e := es[..|es| - 1], es[|es| - 1];
      LeaksOnlyByReplacing(c, before);
      PortsConserved(c, before);
      var r := After(before);
      if Replaces(r, e) {
        var s := r.sessions[e.call][0];
        assert s.portA in Ports(r.sessions[e.call]);
      }
    }
  }

  function StreamAt(d: Descriptor, base: nat): Stream {
    Stream(d.kind, d.mediaIndex, base, base + 1)
  }

  /** The counter after one section's search, and its stream. */
  function BindOne(c: Config, counter: nat, busy: set<nat>, d: Descriptor): (nat, Option<Stream>) {
    var (next, base) := BindPair(c, counter, busy);
    (next, if base == None then None else Some(StreamAt(d, base.value)))
  }

  function PairOf(s: Stream): set<nat> {
    {s.portA, s.portB}
  }

  /** One search per section, each with the ports of the earlier ones taken; it stops where one fails. */
  function BindAll(c: Config, counter: nat, busy: set<nat>, media: seq<Descriptor>): (nat, Option<seq<Stream>>)
    decreases |media|
  {
    if media == [] then (counter, Some([]))
    else
      var (next, s) := BindOne(c, counter, busy, media[0]);
      if s == None then (next, None) else Behind([s.value], BindAll(c, next, busy + PairOf(s.value), media[1..]))
  }

  function Behind(streams: seq<Stream>, r: (nat, Option<seq<Stream>>)): (nat, Option<seq<Stream>>) {
    (r.0, if r.1 == None then None else Some(streams + r.1.value))
  }

  lemma BehindStep(streams: seq<Stream>, s: Stream, r: (nat, Option<seq<Stream>>))
    ensures Behind(streams, Behind([s], r)) == Behind(streams + [s], r)
  {
    if r.1.Some? {
      assert streams + ([s] + r.1.value) == streams + [s] + r.1.value;
    }
  }

  /** What an allocation comes to: the counter afterwards, and the streams. */
  function Allocation(c: Config, counter: nat, busy: set<nat>, media: seq<Descriptor>): (nat, Option<seq<Stream>>) {
    if ActiveOnly(media) == [] then (counter, None) else BindAll(c, counter, busy, ActiveOnly(media))
  }

  const CALLED := Descriptor(Audio, 0, 5004, true)
  const ONCE := Allocate("call", [CALLED], Some([Stream(Audio, 0, 10000, 10001)]))
  const AGAIN := Allocate("call", [CALLED], Some([Stream(Audio, 0, 10002, 10003)]))

  lemma AllocatedOnce(c: Config)
    requires c == Config(10000, 10010)
    ensures LegalRun(c, [ONCE]) && Leaked([ONCE]) == {}
    ensures After([ONCE]) == Relay(map["call" := ONCE.got.value], {10000, 10001})
  {
    assert [ONCE][..0] == [];
    assert ActiveOnly([CALLED]) == [CALLED] by {
      assert [CALLED][1..] == [];
    }
    assert Legal(c, Fresh, ONCE);
    assert Ports(ONCE.got.value) == {10000, 10001} by {
      assert ONCE.got.value[0] in ONCE.got.value;
    }
  }

  /** A live call that is allocated again: its first two ports stay bound and belong to no session. */
  lemma ReallocationLeaks()
    ensures LegalRun(Config(10000, 10010), [ONCE, AGAIN]) && Leaked([ONCE, AGAIN]) == {10000, 10001}
    ensures 10000 in After([ONCE, AGAIN]).held && !Owns(After([ONCE, AGAIN]), "call", 10000)
  {
    AllocatedOnce(Config(10000, 10010));
    assert [ONCE, AGAIN][..1] == [ONCE] && [CALLED][1..] == [];
    assert Ports(ONCE.got.value) == {10000, 10001} by {
      assert ONCE.got.value[0] in ONCE.got.value;
    }
    assert Ports(AGAIN.got.value) == {10002, 10003} by {
      assert AGAIN.got.value[0] in AGAIN.got.value;
    }
  }

  /** The relay as its methods update it. */
  class MediaRelay {
    const cfg: Config
    var sessions: map<CallId, seq<Stream>>
    var held: set<nat>
    var portCounter: nat

    constructor (cfg: Config)
      ensures this.cfg == cfg && Contents() == Fresh && portCounter == 0 && Valid()
    {
      this.cfg := cfg;
      sessions, held, portCounter := map[], {}, 0;
    }

    function Contents(): (r: Relay)
      reads this`sessions, this`held
    {
      Relay(sessions, held)
    }

    /** The counter only ever moves in steps of two. */
    predicate Valid()
      reads this`portCounter
    {
      portCounter < U32 && portCounter % 2 == 0
    }

    /** `taken` are the ports that other processes hold while this search runs. */
    method BindPortPair(taken: set<nat>) returns (base: Option<nat>)
      requires Valid()
      modifies this`portCounter, this`held
      ensures Valid()
      ensures (portCounter, base) == BindPair(cfg, old(portCounter), old(held) + taken)
      ensures held == if base == None then old(held) else old(held) + {base.value, base.value + 1}
    {
      CounterStaysEven(cfg, portCounter, held + taken);
      var width := cfg.Width();
      if width < 2 {
        return None;
      }
      ghost var start := portCounter;
      ghost var first := FirstFree(cfg, start, held + taken, 0);
      var attempt := 0;
      while attempt < width / 2
        invariant 0 <= attempt <= first <= width / 2
        invariant held == old(held)
        invariant portCounter == Advance(start, attempt)
      {
        var candidate := cfg.min + Aligned(portCounter % width);
        portCounter := (portCounter + 2) % U32;
        AdvanceNext(start, attempt);
        assert candidate == Attempt(cfg, start, attempt);
        if FreePair(candidate, held + taken) {
          held := held + {candidate, candidate + 1};
          return Some(candidate);
        }
        attempt := attempt + 1;
      }
      base := None;
    }

    method AllocateStream(d: Descriptor, taken: set<nat>) returns (s: Option<Stream>)
      requires Valid()
      modifies this`portCounter, this`held
      ensures Valid()
      ensures (portCounter, s) == BindOne(cfg, old(portCounter), old(held) + taken, d)
      ensures held == if s == None then old(held) else old(held) + PairOf(s.value)
      ensures s.Some? ==> PairOf(s.value) !! old(held)
    {
      BindPairSafe(cfg, portCounter, held + taken);
      var base := BindPortPair(taken);
      s := if base == None then None else Some(StreamAt(d, base.value));
    }

    /** The loop over the active sections; a failed search releases what the earlier ones bound. */
    method BindStreams(active: seq<Descriptor>, taken: set<nat>) returns (got: Option<seq<Stream>>)
      requires Valid()
      modifies this`portCounter, this`held
      ensures Valid()
      ensures (portCounter, got) == BindAll(cfg, old(portCounter), old(held) + taken, active)
      ensures held == old(held) + if got == None then {} else Ports(got.value)
    {
      var streams := [];
      ghost var goal := BindAll(cfg, portCounter, held + taken, active);
      BehindNothing(goal);
      assert active[0..] == active;
      for i := 0 to |active|
        invariant Valid()
        invariant held == old(held) + Ports(streams) && Ports(streams) !! old(held)
        invariant goal == Behind(streams, BindAll(cfg, portCounter, held + taken, active[i..]))
      {
        ghost var before, counter := held, portCounter;
        var s := AllocateStream(active[i], taken);
        if s == None {
          BindAllStops(cfg, counter, before + taken, active[i..], portCounter);
          held := held - Ports(streams);
          assert held == old(held);
          return None;
        }
        TurnBinds(cfg, goal, streams, counter, before, taken, active, i, portCounter, s.value);
        TurnHolds(old(held), before, streams, s.value);
        streams := streams + [s.value];
      }
      assert active[|active|..] == [] && streams + [] == streams;
      got := Some(streams);
    }

    /** One stream per active section, or nothing at all: it fails only where a search fails. */
    method AllocateSession(call: CallId, media: seq<Descriptor>, taken: set<nat>) returns (got: Option<seq<Stream>>)
      requires Valid()
      modifies this
      ensures Valid()
      ensures Legal(cfg, old(Contents()), Allocate(call, media, got))
      ensures Contents() == Next(old(Contents()), Allocate(call, media, got))
      ensures (portCounter, got) == Allocation(cfg, old(portCounter), old(held) + taken, media)
    {
      var active := ActiveOnly(media);
      if active == [] {
        return None;
      }
      BoundAll(cfg, portCounter, held + taken, active);
      got := BindStreams(active, taken);
      if got.Some? {
        FewerBusy(cfg, old(held) + taken, old(held), active, got.value);
        sessions := sessions[call := got.value];
      } else {
        assert held == old(held);
      }
    }

    method RemoveSession(call: CallId)
      modifies this`sessions, this`held
      ensures Contents() == Next(old(Contents()), Remove(call))
    {
      if call in sessions {
        var session := sessions[call];
        sessions := sessions - {call};
        held := held - Ports(session);
      }
    }
  }

  lemma BehindNothing(r: (nat, Option<seq<Stream>>))
    ensures Behind([], r) == r
  {
    if r.1.Some? {
      assert [] + r.1.value == r.1.value;
    }
  }

  lemma BindAllStops(c: Config, counter: nat, busy: set<nat>, media: seq<Descriptor>, next: nat)
    requires media != [] && BindOne(c, counter, busy, media[0]) == (next, None)
    ensures BindAll(c, counter, busy, media) == (next, None)
  {
  }

  lemma BindAllGoesOn(c: Config, counter: nat, busy: set<nat>, media: seq<Descriptor>, next: nat, s: Stream)
    requires media != [] && BindOne(c, counter, busy, media[0]) == (next, Some(s))
    ensures BindAll(c, counter, busy, media) == Behind([s], BindAll(c, next, busy + PairOf(s), media[1..]))
  {
  }

  lemma TurnBinds(c: Config, goal: (nat, Option<seq<Stream>>), streams: seq<Stream>, counter: nat,
                  held: set<nat>, taken: set<nat>, media: seq<Descriptor>, i: nat, next: nat, s: Stream)
    requires i < |media| && goal == Behind(streams, BindAll(c, counter, held + taken, media[i..]))
    requires BindOne(c, counter, held + taken, media[i]) == (next, Some(s))
    ensures goal == Behind(streams + [s], BindAll(c, next, held + PairOf(s) + taken, media[i + 1..]))
  {
    BindAllGoesOn(c, counter, held + taken, media[i..], next, s);
    assert media[i..][1..] == media[i + 1..] && held + taken + PairOf(s) == held + PairOf(s) + taken;
    BehindStep(streams, s, BindAll(c, next, held + PairOf(s) + taken, media[i + 1..]));
  }

  lemma TurnHolds(start: set<nat>, held: set<nat>, streams: seq<Stream>, s: Stream)
    requires held == start + Ports(streams) && Ports(streams) !! start && PairOf(s) !! held
    ensures held + PairOf(s) == start + Ports(streams + [s]) && Ports(streams + [s]) !! start
  {
    PortsAdded(streams, s);
  }

  lemma PortsAdded(streams: seq<Stream>, s: Stream)
    ensures Ports(streams + [s]) == Ports(streams) + PairOf(s)
  {
    assert forall x :: x in streams + [s] <==> x in streams || x == s;
    assert s in streams + [s];
  }

  lemma FewerBusy(c: Config, busy: set<nat>, fewer: set<nat>, media: seq<Descriptor>, streams: seq<Stream>)
    requires WellBound(c, busy, media, streams) && fewer <= busy
    ensures WellBound(c, fewer, media, streams)
  {
  }

  lemma PrependBound(c: Config, busy: set<nat>, media: seq<Descriptor>, s: Stream, rest: seq<Stream>)
    requires media != [] && s.kind == media[0].kind && s.mediaIndex == media[0].mediaIndex && s.portB == s.portA + 1
    requires InPair(c, s.portA) && FreePair(s.portA, busy)
    requires WellBound(c, busy + {s.portA, s.portB}, media[1..], rest)
    ensures WellBound(c, busy, media, [s] + rest)
  {
    var all := [s] + rest;
    forall k | 0 <= k < |rest|
      ensures all[k + 1] == rest[k] && {s.portA, s.portB} !! {rest[k].portA, rest[k].portB}
    {
      assert FreePair(rest[k].portA, busy + {s.portA, s.portB});
    }
  }

  /** The streams of a successful allocation are well bound. */
  lemma {:induction false} BoundAll(c: Config, counter: nat, busy: set<nat>, media: seq<Descriptor>)
    ensures var r := BindAll(c, counter, busy, media).1; r.Some? ==> WellBound(c, busy, media, r.value)
    decreases |media|
  {
    if media != [] {
      var (next, s) := BindOne(c, counter, busy, media[0]);
      if s.Some? {
        var rest := BindAll(c, next, busy + PairOf(s.value), media[1..]);
        BindPairSafe(c, counter, busy);
        BoundAll(c, next, busy + PairOf(s.value), media[1..]);
        BindAllGoesOn(c, counter, busy, media, next, s.value);
        if rest.1.Some? {
          PrependBound(c, busy, media, s.value, rest.1.value);
        }
      }
    }
  }
}
