/**
  One inbound stream, from the octets it opens with to the octets it is answered with (src/tunnel/admit.rs:103-381):
  read, name, resolve, admit, and then every check left before the target is served.
*/
module Serving {
  import opened Wrappers
  import opened Octets
  import opened Streams
  import opened Protocol
  import opened ServiceNames
  import opened LiveCut
  import G = Gates
  import opened Routing
  import opened Exposing
  import opened Admission
  import Catalog

  /** The details this host words for itself: for a name that is none, from the name, and for a source that fails. */
  datatype Texts = Texts(badName: Text -> Detail, source: Detail)

  /** What an undecided gate is answered with: fixed text, whatever the host's state. */
  function UndecidedDetail(): Detail { Ascii("the gate did not finish deciding in time; retry") }

  /** A serving node: its proven exposer, what its operator turned off, and whether a live cut is wired. */
  datatype Node = Node(e: Exposer, disabled: set<Service>, parse: Text -> Option<Cap>, wired: bool, texts: Texts)

  /** The peer a session attests. */
  datatype Peer = Peer(key: Key, usable: bool, proof: PeerProof)

  /** What a stream's life changes: the node's pools, its session's standing and its session's record. */
  datatype Now = Now(pools: Pools, entered: bool, opens: nat, record: Record)

  datatype Cause =
    | Silent
    | Skewed(version: WireVersion)
    | BadService(name: Text)
    | NotLetIn(refusal: HostRefusal)
    | Disabled
    | Unknown
    | BelowFloor
    | SourceUnavailable
    | AboveCeiling
    | Unkept(why: Unrecorded)

  datatype Outcome = Served(admitted: Admitted) | Denied(cause: Cause)

  // ----- the name asked for ----------------------------------------------------------------------------

  function AsString(b: seq<byte>): string { seq(|b|, i requires 0 <= i < |b| => b[i] as int as char) }

  function ServiceOf(text: Text): Option<Service> {
    if IsName(AsString(text)) then Some(AsString(text)) else None
  }

  lemma TheSoleName(t: Table, a: Service, b: Service)
    requires |t| == 1 && a in t && b in t
    ensures a == b
  {
    var others := t.Keys - {a};
    assert |others| == |t.Keys| - 1 == |t| - 1;
    assert b == a || b in others;
  }

  /** A node with one service takes any other name for it; one with more guesses nothing. */
  ghost function Resolve(requested: Service, t: Table): (service: Service)
    ensures requested in t || |t| != 1 ==> service == requested
    ensures |t| == 1 ==> service in t
  {
    if requested in t || |t| != 1 then requested
    else
      assert |t.Keys| == 1;
      assert exists only :: only in t by { assert t.Keys != {}; }
      var only :| only in t; only
  }

  method ResolveSingleService(requested: Service, t: Table) returns (service: Service)
    ensures service == Resolve(requested, t)
  {
    if requested in t || |t| != 1 {
      return requested;
    }
    assert t.Keys != {};
    service :| service in t;
    TheSoleName(t, service, Resolve(requested, t));
  }

  // ----- what becomes of a stream ----------------------------------------------------------------------

  function TokenOf(parse: Text -> Option<Cap>, presented: Option<Text>): Option<Token> {
    match presented
    case None => None
    case Some(text) => Some(match parse(text) case None => Malformed case Some(cap) => Token.Parsed(cap))
  }

  function DialOf(node: Node, peer: Peer, q: Request, service: Service): Dial {
    Dial(peer.key, peer.usable, peer.proof,
         TokenOf(node.parse, q.capability), TokenOf(node.parse, q.membership), service)
  }

  /** Everything refused between admission and the opening of the target, in order. */
  function RefusedAtOnce(node: Node, opens: nat, service: Service, standing: G.Witness): Option<Cause> {
    var t := node.e.services;
    if service in node.disabled then Some(Disabled)
    else if service !in t then Some(Unknown)
    else if t[service].access.Member? && !standing.member then Some(BelowFloor)
    else match t[service].target
      case RawStream(_) => if opens == 0 then Some(SourceUnavailable) else None
      case Handler(marker) => if !marker.Accepts(standing.origin) then Some(AboveCeiling) else None
  }

  predicate IsRaw(e: Exposer, service: Service) { service in e.services && e.services[service].target.RawStream? }

  /** Everything between admission and the record; `source` is whether a raw stream's open succeeds. */
  function Judge(node: Node, opens: nat, service: Service, standing: G.Witness, source: bool): Option<Cause> {
    match RefusedAtOnce(node, opens, service, standing)
    case Some(cause) => Some(cause)
    case None => if IsRaw(node.e, service) && !source then Some(SourceUnavailable) else None
  }

  /** What a served stream is kept on: the key a proven-only route was witnessed for, or the caps ruled on. */
  function KeptOn(key: Key, a: Admitted): Stream {
    match a.permit
    case ProvenPermit(proven) => ProvenBy(proven)
    case _ => Ruled(key, a.ruled)
  }

  function Recorded(node: Node, r: Record, key: Key, a: Admitted): Result<Record, Unrecorded> {
    if node.wired then Keep(r, KeptOn(key, a)) else Success(r)
  }

  function ServeDial(node: Node, now: Now, d: Dial, source: bool): (Outcome, Now) {
    var ruling := Admit(node.e, now.pools, now.entered, d);
    match ruling.outcome
    case Failure(refusal) => (Denied(NotLetIn(refusal)), now)
    case Success(a) =>
      var refused := now.(pools := Returned(ruling.pools, a.permit), entered := ruling.entered);
      match Judge(node, now.opens, d.service, a.standing, source)
      case Some(cause) => (Denied(cause), refused)
      case None =>
        match Recorded(node, now.record, d.peer, a)
        case Failure(why) => (Denied(Unkept(why)), refused)
        case Success(record) => (Served(a), now.(pools := ruling.pools, entered := ruling.entered, record := record))
  }

  ghost function Serve(node: Node, now: Now, peer: Peer, heard: seq<byte>, source: bool): (Outcome, Now) {
    match ParseRequest(heard)
    case Bad(Version(version), _) => (Denied(Skewed(version)), now)
    case Bad(_, _) => (Denied(Silent), now)
    case Done(q, _) =>
      match ServiceOf(q.service)
      case None => (Denied(BadService(q.service)), now)
      case Some(name) => ServeDial(node, now, DialOf(node, peer, q, Resolve(name, node.e.services)), source)
  }

  function WireRefusal(refusal: HostRefusal): Protocol.Refusal {
    match refusal
    case ByGate(Undecided) => Unavailable(UndecidedDetail())
    case ByGate(_) => NotAdmitted
    case _ => NotAdmitted
  }

  function Reply(texts: Texts, outcome: Outcome): Option<Response> {
    match outcome
    case Served(_) => Some(Ok)
    case Denied(Silent) => None
    case Denied(Skewed(version)) => Some(Protocol.Refused(RefusalFor(Version(version)).value))
    case Denied(BadService(name)) => Some(Protocol.Refused(BadRequest(texts.badName(name))))
    case Denied(NotLetIn(refusal)) => Some(Protocol.Refused(WireRefusal(refusal)))
    case Denied(SourceUnavailable) => Some(Protocol.Refused(Unavailable(texts.source)))
    case Denied(_) => Some(Protocol.Refused(NotAdmitted))
  }

  /** The octets an outcome is answered with. */
  function Said(texts: Texts, outcome: Outcome): seq<byte> {
    match Reply(texts, outcome)
    case None => []
    case Some(response) => Answer(response).value
  }

  /** What one stream is served with: the node and its pools, and its session's permit and record. */
  class Context {
    const node: Node
    const pools: PermitPools
    const opens: Semaphore
    const session: PublicSession
    const chains: AdmittedChains

    ghost predicate Valid()
      reads chains
    {
      && pools.Valid()
      && opens != pools.streams && opens != pools.sessions && opens != pools.proven
      && |chains.ids| <= MAX_SESSION_CHAIN_IDS
    }

    ghost function State(): Now
      reads pools.streams, pools.sessions, pools.proven, opens, session, chains
    {
      Now(pools.Free(), session.held, opens.free, chains.State())
    }

    constructor (node: Node)
      ensures Valid() && this.node == node
      ensures fresh(pools.streams) && fresh(pools.sessions) && fresh(pools.proven)
      ensures fresh(opens) && fresh(session) && fresh(chains)
      ensures State() == Now(IDLE.pools, false, IDLE.opens, EMPTY)
    {
      this.node := node;
      pools := new PermitPools();
      opens := new Semaphore(RAW_STREAM_OPEN_PERMITS);
      session := new PublicSession();
      chains := new AdmittedChains();
    }

    /** Every check between admission and the record; a raw stream's open holds a permit only while it runs. */
    method Prepare(service: Service, standing: G.Witness, source: bool) returns (cause: Option<Cause>)
      modifies opens
      ensures cause == Judge(node, old(opens.free), service, standing, source)
      ensures opens.free == old(opens.free)
    {
      if service in node.disabled {
        return Some(Disabled);
      }
      if service !in node.e.services {
        return Some(Unknown);
      }
      var route := node.e.services[service];
      if route.access.Member? && !standing.member {
        return Some(BelowFloor);
      }
      match route.target {
        case RawStream(_) =>
          var taken := opens.TryAcquire();
          if !taken {
            return Some(SourceUnavailable);
          }
          opens.Release();
          cause := if source then None else Some(SourceUnavailable);
        case Handler(marker) =>
          cause := if marker.Accepts(standing.origin) then None else Some(AboveCeiling);
      }
    }

    /** Keep what the stream was admitted on, just before it is served. */
    method KeepChains(key: Key, a: Admitted) returns (r: Result<(), Unrecorded>)
      requires |chains.ids| <= MAX_SESSION_CHAIN_IDS
      modifies chains
      ensures |chains.ids| <= MAX_SESSION_CHAIN_IDS
      ensures match Recorded(node, old(chains.State()), key, a)
              case Success(kept) => r.Success? && chains.State() == kept
              case Failure(why) => r == Failure(why) && chains.State() == old(chains.State())
    {
      if !node.wired {
        return Success(());
      }
      if a.permit.ProvenPermit? {
        chains.RecordProven(a.permit.key);
        return Success(());
      }
      r := chains.RecordAll(key, a.ruled);
    }

    method ServeAdmitted(d: Dial, source: bool) returns (outcome: Outcome)
      requires Valid()
      modifies pools.streams, pools.sessions, pools.proven, opens, session, chains
      ensures Valid()
      ensures (outcome, State()) == ServeDial(node, old(State()), d, source)
    {
      var admitted := pools.AdmitStream(node.e, session, d);
      if admitted.Failure? {
        return Denied(NotLetIn(admitted.error));
      }
      var a := admitted.value;
      var cause := Prepare(d.service, a.standing, source);
      if cause.Some? {
        pools.Drop(a.permit);
        return Denied(cause.value);
      }
      var kept := KeepChains(d.peer, a);
      if kept.Failure? {
        pools.Drop(a.permit);
        return Denied(Unkept(kept.error));
      }
      outcome := Served(a);
    }

    /** Read, name and resolve, then admit and serve. */
    method Hear(b: Reader, peer: Peer, source: bool) returns (outcome: Outcome)
      requires Valid() && b.Valid()
      modifies pools.streams, pools.sessions, pools.proven, opens, session, chains, b`at
      ensures Valid()
      ensures (outcome, State()) == Serve(node, old(State()), peer, old(b.Rest()), source)
    {
      var read := ReadRequest(b);
      if read.Failure? {
        return Denied(if read.error.Version? then Skewed(read.error.peer) else Silent);
      }
      var name := ServiceOf(read.value.service);
      if name.None? {
        return Denied(BadService(read.value.service));
      }
      var service := ResolveSingleService(name.value, node.e.services);
      outcome := ServeAdmitted(DialOf(node, peer, read.value, service), source);
    }

    /** The stream, octets in and octets out. */
    method ServeRequest(b: Reader, w: Writer, peer: Peer, source: bool) returns (outcome: Outcome)
      requires Valid() && b.Valid()
      modifies pools.streams, pools.sessions, pools.proven, opens, session, chains, b`at, w
      ensures Valid()
      ensures (outcome, State()) == Serve(node, old(State()), peer, old(b.Rest()), source)
      ensures w.written == old(w.written) + Said(node.texts, outcome)
    {
      outcome := Hear(b, peer, source);
      Say(w, outcome);
    }

    method Say(w: Writer, outcome: Outcome)
      modifies w
      ensures w.written == old(w.written) + Said(node.texts, outcome)
    {
      hide SkewDetail, UndecidedDetail;
      var reply := Reply(node.texts, outcome);
      if reply.Some? {
        var written := WriteResponse(w, reply.value);
      }
    }
  }

  // ----- what octets come to ---------------------------------------------------------------------------

  /** The caps and the key an admitted stream rests on are all good at `now`. */
  ghost predicate GoodOn(o: Oracle, key: Key, a: Admitted, now: Time) {
    && (forall cap :: cap in a.ruled ==>
          && cap.root !in o.store.keys
          && (forall id :: id in cap.ids ==> id !in o.store.ids)
          && (forall t: Time :: cap.validUntil == Success(Some(t)) ==> now <= t))
    && (a.ruled != [] ==> o.trusted(a.ruled[0].root))
    && (a.ruled != [] || a.permit.ProvenPermit? ==> key !in o.store.keys)
    && (a.permit.ProvenPermit? ==> FlipSign(key) !in o.store.keys)
  }

  /** What is kept of an admitted stream is all it rests on: it is good exactly while every cap ruled on is. */
  lemma WhatIsKeptIsWhatItRestsOn(o: Oracle, key: Key, a: Admitted, now: Time)
    requires a.permit.ProvenPermit? ==> a.permit == ProvenPermit(key) && a.ruled == []
    ensures Good(o, KeptOn(key, a), now) <==> GoodOn(o, key, a, now)
  {
    var kept := KeptOn(key, a);
    if !a.permit.ProvenPermit? {
      assert kept.Ruled? && kept.key == key;
      assert forall t: Time :: EndsAt(kept, t) <==> exists cap :: cap in a.ruled && cap.validUntil == Success(Some(t));
    }
  }

  lemma AsciiNames(name: Service)
    ensures ServiceOf(Ascii(name)) == Some(name)
  {
    assert AsString(Ascii(name)) == name;
  }

  /**
    From a request's octets to its ruling: on a gated name the gate is asked of this request's own tokens, the one in
    its first slot as the slip and the one in its second as the badge, for the name it asks for and no other.
  */
  lemma ARequestIsRuledOnItsOwnTokens(node: Node, now: Now, peer: Peer, q: Request, tail: seq<byte>, source: bool,
                                      name: Service)
    requires Fits(q) && q.service == Ascii(name) && name in node.e.services
    requires !IsOpened(node.e, name) && !IsProvenOnly(node.e, name)
    requires node.e.gate.RootedGate? && peer.usable && peer.proof != Protocol.Announced
    ensures var r, gate := Serve(node, now, peer, Frame(q) + tail, source).0, node.e.gate;
            (r.Denied? && r.cause.NotLetIn?) <==>
              !match q.capability
               case None => gate.single(peer.key, None, name).Success?
               case Some(slot) =>
                 match node.parse(slot)
                 case None => false
                 case Some(slip) =>
                   if slip.authorityBound && q.membership.Some? then
                     && node.parse(q.membership.value).Some?
                     && gate.foreign(peer.key, slip, node.parse(q.membership.value).value, name).Success?
                   else gate.single(peer.key, Some(slip), name).Success?
  {
    hide ParseRequest, Frame, ServeDial, Admit;
    RequestRoundTrips(q, tail);
    AsciiNames(name);
    var d := DialOf(node, peer, q, name);
    AGatedDialIsRuledOnItsTokens(node.e, now.pools, now.entered, d);
    ADialIsLetInExactly(node, now, d, source);
  }

  lemma ADialIsLetInExactly(node: Node, now: Now, d: Dial, source: bool)
    ensures var r := ServeDial(node, now, d, source).0;
            (r.Denied? && r.cause.NotLetIn?) <==> Admit(node.e, now.pools, now.entered, d).outcome.Failure?
  {}

  lemma UnavailableFor47(detail: Detail)
    requires |detail| == 0x2f
    ensures Answer(Protocol.Refused(Unavailable(detail))) == Some([0x01, 0x02, 0x00, 0x2f] + detail)
  {
    assert Str(detail) == [0x00, 0x2f] + detail;
    assert [0x01, 0x02] + Str(detail) == [0x01, 0x02, 0x00, 0x2f] + detail;
  }

  /** The answer of a gate that did not decide, as PROTOCOL.md publishes it. */
  lemma ThePublishedUndecided(texts: Texts)
    ensures Said(texts, Denied(NotLetIn(ByGate(G.Undecided))))
         == [0x01, 0x02, 0x00, 0x2f] + Ascii("the gate did not finish deciding in time; retry")
  {
    UnavailableFor47(UndecidedDetail());
  }

  /** A name outside the grammar is named as the fault, before anything of this node is looked at. */
  lemma ABadNameIsToldSo(node: Node, now: Now, peer: Peer, q: Request, tail: seq<byte>, source: bool)
    requires Fits(q) && !IsName(AsString(q.service))
    ensures Serve(node, now, peer, Frame(q) + tail, source) == (Denied(BadService(q.service)), now)
    ensures Said(node.texts, Denied(BadService(q.service))) == [1, 1] + Str(node.texts.badName(q.service))
  {
    hide ParseRequest, Frame, ServeDial;
    RequestRoundTrips(q, tail);
  }

  // ----- what a refusal costs and says -----------------------------------------------------------------

  /**
    A refused stream leaves no trace in the record and gives every permit of its own back; only the session's
    public permit, once taken by an admitted stream, stays with the session.
  */
  lemma ARefusedStreamLeavesNoTrace(node: Node, now: Now, peer: Peer, heard: seq<byte>, source: bool)
    requires Serve(node, now, peer, heard, source).0.Denied?
    ensures var after := Serve(node, now, peer, heard, source).1;
            && after.record == now.record && after.opens == now.opens
            && after.pools == now.pools.(sessions := after.pools.sessions)
            && after.pools.sessions + (if after.entered && !now.entered then 1 else 0) == now.pools.sessions
            && (now.entered ==> after.entered)
  {
    var p := ParseRequest(heard);
    if p.Done? && ServiceOf(p.value.service).Some? {
      var d := DialOf(node, peer, p.value, Resolve(ServiceOf(p.value.service).value, node.e.services));
      if Admit(node.e, now.pools, now.entered, d).outcome.Success? {
        AdmissionTakesWhatItHolds(node.e, now.pools, now.entered, d);
      }
    }
  }

  lemma AServedDialIsKept(node: Node, now: Now, d: Dial, source: bool)
    requires ServeDial(node, now, d, source).0.Served? && node.wired
    ensures var r := ServeDial(node, now, d, source);
            && Keep(now.record, KeptOn(d.peer, r.0.admitted)) == Success(r.1.record)
            && KeptOn(d.peer, r.0.admitted).key == d.peer
  {}

  /** Every served stream is on a wired session's record, under its session's key. */
  lemma AServedStreamIsKept(node: Node, now: Now, peer: Peer, heard: seq<byte>, source: bool)
    requires Serve(node, now, peer, heard, source).0.Served? && node.wired
    ensures var r := Serve(node, now, peer, heard, source);
            && Keep(now.record, KeptOn(peer.key, r.0.admitted)) == Success(r.1.record)
            && KeptOn(peer.key, r.0.admitted).key == peer.key
  {
    var q := ParseRequest(heard).value;
    AServedDialIsKept(node, now, DialOf(node, peer, q, Resolve(ServiceOf(q.service).value, node.e.services)), source);
  }

  /** The causes a dialer must not be able to tell apart. */
  predicate Uniform(cause: Cause) {
    match cause
    case NotLetIn(refusal) => refusal != ByGate(G.Undecided)
    case Disabled => true
    case Unknown => true
    case BelowFloor => true
    case AboveCeiling => true
    case Unkept(_) => true
    case _ => false
  }

  predicate WellFormed(heard: seq<byte>) {
    ParseRequest(heard).Done? && ServiceOf(ParseRequest(heard).value.service).Some?
  }

  predicate SaysUnavailable(said: seq<byte>) { |said| >= 4 && said[0] == 1 && said[1] == 2 }

  lemma WhatEachOutcomeSays(texts: Texts, outcome: Outcome)
    requires outcome.Denied? ==> !outcome.cause.Silent? && !outcome.cause.Skewed? && !outcome.cause.BadService?
    ensures var said := Said(texts, outcome);
            && (said == [0] <==> outcome.Served?)
            && (said == [1, 0] <==> outcome.Denied? && Uniform(outcome.cause))
            && (SaysUnavailable(said) <==>
                  outcome == Denied(NotLetIn(ByGate(G.Undecided))) || outcome == Denied(SourceUnavailable))
  {
    hide SkewDetail, UndecidedDetail;
  }

  lemma AWellFormedRequestIsJudged(node: Node, now: Now, peer: Peer, heard: seq<byte>, source: bool)
    requires WellFormed(heard)
    ensures var outcome := Serve(node, now, peer, heard, source).0;
            outcome.Denied? ==> !outcome.cause.Silent? && !outcome.cause.Skewed? && !outcome.cause.BadService?
  {
    hide ParseRequest, ServiceOf, Resolve, DialOf, ServeDial;
    var q := ParseRequest(heard).value;
    ADialIsJudged(node, now, DialOf(node, peer, q, Resolve(ServiceOf(q.service).value, node.e.services)), source);
  }

  lemma ADialIsJudged(node: Node, now: Now, d: Dial, source: bool)
    ensures var outcome := ServeDial(node, now, d, source).0;
            outcome.Denied? ==> !outcome.cause.Silent? && !outcome.cause.Skewed? && !outcome.cause.BadService?
  {}

  /**
    Two nodes that turn the same request away for any uniform cause answer with the same two octets, whatever
    their tables, gates, overlays, disabled sets, pools and records, and whoever asks.
  */
  lemma RefusalsReadAlike(n: Node, m: Node, x: Now, y: Now, p: Peer, q: Peer, a: bool, b: bool, heard: seq<byte>)
    requires WellFormed(heard)
    requires Serve(n, x, p, heard, a).0.Denied? && Uniform(Serve(n, x, p, heard, a).0.cause)
    requires Serve(m, y, q, heard, b).0.Denied? && Uniform(Serve(m, y, q, heard, b).0.cause)
    ensures Said(n.texts, Serve(n, x, p, heard, a).0) == Said(m.texts, Serve(m, y, q, heard, b).0) == [1, 0]
  {
    WhatTheWireTells(n, x, p, heard, a);
    WhatTheWireTells(m, y, q, heard, b);
  }

  /** All a well-formed request can learn: served, turned away, or that this host could not serve it just now. */
  lemma WhatTheWireTells(node: Node, now: Now, peer: Peer, heard: seq<byte>, source: bool)
    requires WellFormed(heard)
    ensures var outcome := Serve(node, now, peer, heard, source).0;
            var said := Said(node.texts, outcome);
            && (said == [0] <==> outcome.Served?)
            && (said == [1, 0] <==> outcome.Denied? && Uniform(outcome.cause))
            && (SaysUnavailable(said) <==>
                  outcome == Denied(NotLetIn(ByGate(G.Undecided))) || outcome == Denied(SourceUnavailable))
            && (said == [0] || said == [1, 0] || SaysUnavailable(said))
  {
    AWellFormedRequestIsJudged(node, now, peer, heard, source);
    WhatEachOutcomeSays(node.texts, Serve(node, now, peer, heard, source).0);
  }

  /**
    The one answer about this host rather than the dialer past the gate: only who was admitted to a raw stream
    hears it.
  */
  lemma OnlyTheAdmittedHearOfASource(node: Node, now: Now, d: Dial, source: bool)
    requires ServeDial(node, now, d, source).0 == Denied(SourceUnavailable)
    ensures Admit(node.e, now.pools, now.entered, d).outcome.Success?
    ensures d.service in node.e.services && node.e.services[d.service].target.RawStream? && d.service !in node.disabled
    ensures now.opens == 0 || !source
  {}

  lemma AnUnreadableRequestIsSetAside(node: Node, now: Now, peer: Peer, heard: seq<byte>, source: bool)
    requires ParseRequest(heard).Bad?
    ensures var error := ParseRequest(heard).error;
            Serve(node, now, peer, heard, source)
            == (Denied(if Answered(error) then Skewed(error.peer) else Silent), now)
  {}

  lemma WhatASkewSays(texts: Texts, version: WireVersion)
    ensures Said(texts, Denied(Skewed(version))) == [1, 1] + Str(SkewDetail(version))
    ensures Said(texts, Denied(Silent)) == []
  {
    hide SkewDetail;
  }

  /** A head on another version is told so, and one that is not ours is told nothing. */
  lemma UnreadableHeads(node: Node, now: Now, peer: Peer, heard: seq<byte>, source: bool)
    requires |heard| >= 4 && ParseRequest(heard).Bad?
    ensures Serve(node, now, peer, heard, source).1 == now
    ensures Said(node.texts, Serve(node, now, peer, heard, source).0)
         == if CapitalRun(heard) == IDENTITY && heard[2..4] != VERSION then [1, 1] + Str(SkewDetail(heard[2..4]))
            else []
  {
    hide SkewDetail, ParseRequest, Serve, Said, CapitalRun;
    TheHeadIsJudgedByItsRun(heard);
    AnUnreadableRequestIsSetAside(node, now, peer, heard, source);
    WhatASkewSays(node.texts, heard[2..4]);
  }
}

/** What the door's interlocks mean for every stream that comes after (src/tunnel/exposer.rs:137-259). */
module Assembly {
  import opened Wrappers
  import opened ServiceNames
  import opened LiveCut
  import G = Gates
  import opened Routing
  import opened Exposing
  import opened Admission
  import opened Serving
  import Protocol
  import Catalog

  /** An exposer as the router and the door make it. */
  ghost predicate Accepted(e: Exposer) {
    WellBound(e.services) && Sound(e.services, e.gate.OpenGate?, e.public, e.publicUnsafe)
  }

  predicate HasRoom(now: Now) {
    now.pools.streams > 0 && (now.entered || now.pools.sessions > 0) && now.pools.proven > 0 && now.opens > 0
  }

  /** A stream past every refusal but the record's. */
  predicate Passes(node: Node, now: Now, d: Dial, source: bool) {
    var outcome := ServeDial(node, now, d, source).0;
    outcome.Served? || outcome.cause.Unkept?
  }

  /** Nothing but policy stands in the stream's way. */
  predicate Clear(node: Node, now: Now, d: Dial) {
    d.service in node.e.services && d.service !in node.disabled && d.usable && HasRoom(now)
  }

  /** What a rooted gate says of the tokens a dial presents: whether it is a member's, if it takes them at all. */
  function GateSays(e: Exposer, d: Dial): Option<bool>
    requires e.gate.RootedGate?
  {
    match d.capability
    case None => Word(e.gate.single(d.peer, None, d.service))
    case Some(Malformed) => None
    case Some(Parsed(slip)) =>
      if !slip.authorityBound || d.membership.None? then Word(e.gate.single(d.peer, Some(slip), d.service))
      else match d.membership.value
        case Malformed => None
        case Parsed(badge) => Word(e.gate.foreign(d.peer, slip, badge, d.service))
  }

  function Word(ruling: Result<bool, G.Refusal>): Option<bool> {
    match ruling
    case Success(member) => Some(member)
    case Failure(_) => None
  }

  /** Every token of the dial that counts can be read. */
  predicate Legible(d: Dial) {
    match d.capability
    case None => true
    case Some(Malformed) => false
    case Some(Parsed(slip)) => slip.authorityBound ==> d.membership != Some(Malformed)
  }

  /** Who a route is for. Even an open gate turns away a token it cannot read; an opened name reads none. */
  predicate Welcome(e: Exposer, d: Dial)
    requires d.service in e.services
  {
    if IsOpened(e, d.service) then true
    else if e.services[d.service].access.ProvenRoute? then MayHoldProven(e, d, d.peer)
    else if e.gate.OpenGate? then Legible(d)
    else
      && Protocol.PeerProven(d.proof) && GateSays(e, d).Some?
      && (e.services[d.service].access.Member? ==> GateSays(e, d).value)
  }

  lemma WhatAnAcceptedRouteIs(e: Exposer, name: Service)
    requires Accepted(e) && name in e.services
    ensures var route := e.services[name];
            && (IsOpened(e, name) ==> route.access.Family? && (route.target.OpenSafe() || route.target.RawStream?))
            && (e.gate.OpenGate? && !IsOpened(e, name) ==> route.access.Family? && route.target.OpenSafe())
            && (route.access.ProvenRoute? <==> route.target == Handler(ProvenOnly))
  {
    if name in e.publicUnsafe {
      assert e.services[name].target == RawStream(true);
    }
  }

  /** With room, a stream on a served route gets past everything exactly when its dialer is one the route is for. */
  lemma ServedExactly(node: Node, now: Now, d: Dial)
    requires Accepted(node.e) && Clear(node, now, d)
    ensures Passes(node, now, d, true) <==> Welcome(node.e, d)
  {
    WhatAnAcceptedRouteIs(node.e, d.service);
    PassesExactly(node, now, d);
    hide ServeDial, Admit, Accepted, Passes;
    if IsOpened(node.e, d.service) {
      AnOpenedDialNeedsOnlyRoom(node.e, now.pools, now.entered, d);
    } else if IsProvenOnly(node.e, d.service) {
      AStrangerNeverMeetsThePool(node.e, now.pools, now.entered, d);
      AProvenRouteRefusesExactly(node.e, now.pools, now.entered, d);
    } else if node.e.gate.RootedGate? && d.proof != Protocol.Announced {
      AGatedDialIsRuledOnItsTokens(node.e, now.pools, now.entered, d);
    } else {
      AnUngatedDialIsNotRuledOn(node.e, now.pools, now.entered, d);
    }
  }

  lemma PassesExactly(node: Node, now: Now, d: Dial)
    requires Clear(node, now, d)
    ensures var (r, route) := (Admit(node.e, now.pools, now.entered, d).outcome, node.e.services[d.service]);
            Passes(node, now, d, true)
            <==> && r.Success? && (route.access.Member? ==> r.value.standing.member)
                 && (route.target.Handler? ==> route.target.marker.Accepts(r.value.standing.origin))
  {
    hide Admit;
  }

  /** Whoever runs a handler was fit to: whatever else is true of the node, served means this. */
  lemma ServedSafely(node: Node, now: Now, d: Dial, source: bool)
    requires Accepted(node.e) && ServeDial(node, now, d, source).0.Served?
    ensures var (a, e) := (ServeDial(node, now, d, source).0.admitted, node.e);
            && d.service in e.services && d.service !in node.disabled
            && (e.services[d.service].target == Handler(Never) ==>
                  && a.standing.origin.Rooted? && Protocol.PeerProven(d.proof)
                  && e.gate.RootedGate? && GateSays(e, d).Some?)
            && (e.services[d.service].access.Member? ==>
                  a.standing.origin.Rooted? && e.gate.RootedGate? && GateSays(e, d) == Some(true))
            && (e.services[d.service].access.ProvenRoute? ==> a.standing.origin.Proven? && MayHoldProven(e, d, d.peer))
            && (a.standing.origin.Proven? ==> e.services[d.service].access.ProvenRoute?)
            && (e.services[d.service].target.RawStream? ==>
                  a.standing.origin.Rooted? || d.service in e.publicUnsafe)
  {
    WhatAnAcceptedRouteIs(node.e, d.service);
  }

  /** The gate takes somebody's token as a member's. */
  ghost predicate HasAMember(e: Exposer, name: Service) {
    e.gate.RootedGate? && exists key: Key, cap: Cap :: e.gate.single(key, Some(cap), name) == Success(true)
  }

  /** Somebody holds standing here: members for every name, and for every proven-only route a key it knows. */
  ghost predicate Populated(e: Exposer) {
    e.gate.RootedGate? ==>
      && (forall name :: name in e.services ==> HasAMember(e, name))
      && (forall name :: IsProvenOnly(e, name) ==>
            exists key: Key :: e.gate.Takes(key) && e.services[name].access.knows(key))
  }

  /** No accepted route is dead: somebody gets past everything on it. */
  lemma NoRouteIsDead(node: Node, now: Now, name: Service)
    requires Accepted(node.e) && Populated(node.e) && name in node.e.services && name !in node.disabled && HasRoom(now)
    ensures exists d: Dial :: d.service == name && Passes(node, now, d, true)
  {
    var e := node.e;
    var anyKey: Key := seq(32, _ => 0);
    var d := Dial(anyKey, true, Protocol.Proven, None, None, name);
    if e.gate.RootedGate? {
      if IsProvenOnly(e, name) {
        var key: Key :| e.gate.Takes(key) && e.services[name].access.knows(key);
        d := d.(peer := key);
      } else {
        assert HasAMember(e, name);
        var key: Key, cap: Cap :| e.gate.single(key, Some(cap), name) == Success(true);
        d := d.(peer := key, capability := Some(Token.Parsed(cap)));
      }
    }
    ServedExactly(node, now, d);
    assert Passes(node, now, d, true);
  }

  /** A dialer with no token over a transport that proves nothing. */
  predicate Stranger(d: Dial) { d.usable && d.proof.Announced? && d.capability.None? && d.membership.None? }

  /** The catalog, the banner and the door agree on every name: open is open to a stranger, and gated is not. */
  lemma PosturesAgree(node: Node, now: Now, name: Service, d: Dial)
    requires Accepted(node.e) && Clear(node, now, d) && d.service == name && Stranger(d)
    ensures var e := node.e;
            && ((name, Catalog.Open) in ManifestOf(e) <==> Passes(node, now, d, true))
            && ((name, Catalog.Gated) in ManifestOf(e) <==> !Passes(node, now, d, true))
            && CatalogOf(e.services, e.gate, e.public, e.publicUnsafe, None) == ManifestOf(e)
  {
    var e := node.e;
    WhatAnAcceptedRouteIs(e, name);
    ServedExactly(node, now, d);
    var posture := Posture(e.gate.OpenGate?, e.public, e.publicUnsafe, name);
    assert (name, posture) in ManifestOf(e);
    assert CatalogOf(e.services, e.gate, e.public, e.publicUnsafe, None) == ManifestOf(e);
  }

  /** Whether an exposer may be armed over a transport: a rooted gate needs one that proves its peers. */
  method ProveSecurity(e: Exposer, proof: Protocol.PeerProof) returns (armed: bool)
    ensures armed <==> e.gate.OpenGate? || !proof.Announced?
  {
    armed := !(e.gate.WantsCapability() && !Protocol.PeerProven(proof));
  }

  /**
    What that refusal spares: over a transport that proves nobody, a rooted node serves its opened names and no
    others.
  */
  lemma AnAnnouncedTransportReachesOnlyTheOpened(node: Node, now: Now, d: Dial)
    requires Accepted(node.e) && node.e.gate.RootedGate? && Clear(node, now, d) && d.proof.Announced?
    ensures Passes(node, now, d, true) <==> IsOpened(node.e, d.service)
  {
    ServedExactly(node, now, d);
  }

  /** What a verb binds for members only is served to members only, and at once: whatever else was declared. */
  lemma AMemberVerbServesMembersOnly(verbs: seq<Verb>, i: nat, node: Node, now: Now, d: Dial, source: bool)
    requires AssembleAll(verbs) == Success(node.e.services) && Accepted(node.e)
    requires i < |verbs| && verbs[i].BindMember? && verbs[i].name == d.service
    requires ServeDial(node, now, d, source).0.Served?
    ensures node.e.gate.RootedGate? && GateSays(node.e, d) == Some(true)
    ensures verbs[i].marker == Never ==> d.proof != Protocol.Announced
  {
    ATableIsItsVerbs(verbs);
    var route := Route(Handler(verbs[i].marker), Member);
    assert Binds(verbs[i], d.service, route);
    assert Has(node.e.services, d.service, route);
    ServedSafely(node, now, d, source);
  }

  /**
    Past admission, the first thing in the way is the cause, each exactly where none before it holds: turned off, not
    served, below its floor, a source that cannot be opened or a handler that may not face this witness, and last a
    record that will not take it.
  */
  lemma TheFirstCauseIsGiven(node: Node, now: Now, d: Dial, source: bool)
    requires Admit(node.e, now.pools, now.entered, d).outcome.Success?
    ensures var (r, a, t) := (ServeDial(node, now, d, source).0, Admit(node.e, now.pools, now.entered, d).outcome.value,
                              node.e.services);
            var here := d.service !in node.disabled && d.service in t;
            && (r == Denied(Disabled) <==> d.service in node.disabled)
            && (r == Denied(Unknown) <==> d.service !in node.disabled && d.service !in t)
            && (r == Denied(BelowFloor) <==> here && t[d.service].access.Member? && !a.standing.member)
            && var high := here && (t[d.service].access.Member? ==> a.standing.member);
               && (r == Denied(SourceUnavailable) <==>
                     high && t[d.service].target.RawStream? && (now.opens == 0 || !source))
               && (r == Denied(AboveCeiling) <==>
                     && high && t[d.service].target.Handler?
                     && match t[d.service].target.marker
                        case Never => !a.standing.origin.Rooted?
                        case OptIn => a.standing.origin.Proven?
                        case ProvenOnly => !a.standing.origin.Proven?)
               && (r.Served? ==> high && r.admitted == a)
               && (r.Denied? && r.cause.Unkept? ==>
                     high && node.wired && Keep(now.record, KeptOn(d.peer, a)) == Failure(r.cause.why))
  {}

  // ----- what is left of a refused stream --------------------------------------------------------------

  /** A stream on an opened name that is let in is refused afterwards exactly for these reasons. */
  lemma AnOpenedStreamIsRefusedExactly(node: Node, now: Now, d: Dial, source: bool)
    requires Accepted(node.e) && IsOpened(node.e, d.service) && d.usable && |now.record.ids| <= MAX_SESSION_CHAIN_IDS
    requires now.pools.streams > 0 && (now.entered || now.pools.sessions > 0)
    ensures ServeDial(node, now, d, source).0.Denied?
       <==> d.service in node.disabled || (IsRaw(node.e, d.service) && (now.opens == 0 || !source))
  {
    WhatAnAcceptedRouteIs(node.e, d.service);
    RefusedExactly(now.record, Ruled(d.peer, []));
    OpenRulesOnNothing();
    assert now.record.ids + IdsOf([]) == now.record.ids;
  }

  /** A refused stream takes its session's public permit exactly when it was let in, the first of its session to be. */
  lemma ARefusedStreamEntersExactly(node: Node, now: Now, d: Dial, source: bool)
    requires ServeDial(node, now, d, source).0.Denied?
    ensures ServeDial(node, now, d, source).1.entered != now.entered
       <==> d.usable && IsOpened(node.e, d.service) && !now.entered && now.pools.streams > 0 && now.pools.sessions > 0
  {
  }

  const A: Service := "a"

  /** It happens: an opened name its operator turned off, on a session that had no permit. */
  lemma ADisabledNameCostsASessionPermit(key: Key, parse: Protocol.Text -> Option<Cap>, texts: Texts)
    ensures var e := Exposer(map[A := Route(Handler(OptIn), Family)], G.OpenGate, {A}, {});
            var node := Node(e, {A}, parse, true, texts);
            var now := Now(IDLE.pools, false, IDLE.opens, EMPTY);
            var r := ServeDial(node, now, Dial(key, true, Protocol.Announced, None, None, A), true);
            && Accepted(e)
            && r == (Denied(Disabled), now.(entered := true, pools := now.pools.(sessions := now.pools.sessions - 1)))
  {
  }

  /** An open gate still reads what it is shown: a token that does not parse is refused where no token is not. */
  lemma AnOpenGateRefusesAMalformedToken(key: Key, parse: Protocol.Text -> Option<Cap>, texts: Texts, now: Now)
    ensures var e := Exposer(map[A := Route(Handler(OptIn), Family)], G.OpenGate, {}, {});
            var node := Node(e, {}, parse, false, texts);
            var bare := Dial(key, true, Protocol.Announced, None, None, A);
            && Accepted(e)
            && ServeDial(node, now, bare, true).0.Served?
            && ServeDial(node, now, bare.(capability := Some(Malformed)), true).0
               == Denied(NotLetIn(MalformedCapability))
  {
  }

  /** The answer about a raw source is heard exactly by who is admitted to one that is on and cannot be opened. */
  lemma ASourceIsUnavailableExactly(node: Node, now: Now, d: Dial, source: bool)
    requires Accepted(node.e)
    ensures ServeDial(node, now, d, source).0 == Denied(SourceUnavailable)
       <==> && Admit(node.e, now.pools, now.entered, d).outcome.Success?
            && d.service !in node.disabled && IsRaw(node.e, d.service)
            && (now.opens == 0 || !source)
  {
  }

  // ----- why the door refuses --------------------------------------------------------------------------

  /** The refusals of a route nobody could ever be served on. */
  predicate SaysDead(e: ProveError) {
    e.ProvenUnderOpen? || e.KeylessUnderOpen? || e.MemberUnderOpen? || e.MemberUnsafe?
    || e.PublicProven? || e.PublicMember? || e.PublicKeyless?
  }

  /** The refusals of a raw source that would have been open to anyone without being named as such. */
  predicate SaysExposed(e: ProveError) { e.RawUnderOpen? || e.PublicRaw? }

  /** Had the door let such a route through, every stream on it would be refused, whoever dialed and however. */
  lemma WhatTheDoorCallsDeadIsDead(node: Node, now: Now, d: Dial, source: bool, error: ProveError)
    requires WellBound(node.e.services) && SaysDead(error) && error.name == d.service
    requires Offends(error, node.e.services, node.e.gate.OpenGate?, node.e.public, node.e.publicUnsafe)
    ensures !Passes(node, now, d, source)
  {}

  /** Had it let such a source through, any stranger would be served its bytes. */
  lemma WhatTheDoorCallsExposedIsExposed(node: Node, now: Now, d: Dial, error: ProveError)
    requires WellBound(node.e.services) && SaysExposed(error) && error.name == d.service && Clear(node, now, d)
    requires Offends(error, node.e.services, node.e.gate.OpenGate?, node.e.public, node.e.publicUnsafe)
    ensures Stranger(d) ==> Passes(node, now, d, true)
  {}
}
