/**
  Admission (src/tunnel/admit.rs:667-823): who is let onto a stream, ruled under the node's gate, its two open
  overlays and its proven-only routes, with the permits each way in costs.
*/
module Admission {
  import opened Wrappers
  import opened ServiceNames
  import opened LiveCut
  import opened Gates
  import opened Routing
  import opened Exposing
  import Protocol

  const PUBLIC_SESSION_PERMITS: nat := 32
  const PUBLIC_STREAM_PERMITS: nat := 4
  const PROVEN_STREAM_PERMITS: nat := 8

  /** What a presented token turns out to be. */
  datatype Token = Malformed | Parsed(cap: Cap)

  /** A stream asking for a service: the peer its session attests, how, and what it presents. */
  datatype Dial = Dial(peer: Key, usable: bool, proof: Protocol.PeerProof,
                       capability: Option<Token>, membership: Option<Token>, service: Service)

  /** The free permits of each pool. */
  datatype Pools = Pools(streams: nat, sessions: nat, proven: nat)

  datatype HostRefusal =
    | MalformedCapability
    | PeerNotProven
    | ByGate(refusal: Refusal)
    | PublicAtCapacity
    | UnknownKey
    | PeerKey
    | ProvenAtCapacity
    | Unrevocable

  /** The permit an admitted stream holds until it ends. */
  datatype Permit = NoPermit | PublicPermit | ProvenPermit(key: Key)

  datatype Admitted = Admitted(standing: Witness, ruled: seq<Cap>, permit: Permit)

  /** `entered` is whether the session holds its public-session permit. */
  datatype Ruling = Ruling(outcome: Result<Admitted, HostRefusal>, pools: Pools, entered: bool)

  predicate IsOpened(e: Exposer, service: Service) { service in e.public || service in e.publicUnsafe }

  predicate IsProvenOnly(e: Exposer, service: Service) {
    service in e.services && e.services[service].access.ProvenRoute?
  }

  /** The tokens a ruling is made on: the second slot counts only behind an authority-bound slip. */
  function Presented(d: Dial): Result<(Option<Cap>, Option<Cap>), HostRefusal> {
    if d.capability.None? then Success((None, None))
    else if d.capability.value.Malformed? then Failure(MalformedCapability)
    else
      var slip := d.capability.value.cap;
      if !slip.authorityBound || d.membership.None? then Success((Some(slip), None))
      else if d.membership.value.Malformed? then Failure(MalformedCapability)
      else Success((Some(slip), Some(d.membership.value.cap)))
  }

  function RuleFamily(gate: Gate, d: Dial): Result<Admitted, HostRefusal> {
    if gate.WantsCapability() && !Protocol.PeerProven(d.proof) then Failure(PeerNotProven)
    else
      match Presented(d)
      case Failure(refusal) => Failure(refusal)
      case Success((cap, badge)) =>
        var ruling := if cap.Some? && badge.Some?
                      then gate.AdmitForeignWitnessed(d.peer, cap.value, badge.value, d.service)
                      else gate.AdmitWitnessed(d.peer, cap, d.service);
        match ruling
        case Failure(refusal) => Failure(ByGate(refusal))
        case Success(standing) =>
          Success(Admitted(standing, if gate.WantsCapability() then AsSeq(cap) + AsSeq(badge) else [], NoPermit))
  }

  function AsSeq(cap: Option<Cap>): seq<Cap> { if cap.Some? then [cap.value] else [] }

  /** What a proven-only route asks of a key before its pool is looked at. */
  function RuleProven(e: Exposer, d: Dial): Result<Witness, HostRefusal>
    requires IsProvenOnly(e, d.service)
  {
    if !Protocol.PeerProven(d.proof) then Failure(PeerNotProven)
    else
      match e.gate.ProvenWitness(d.peer)
      case Failure(refusal) => Failure(ByGate(refusal))
      case Success(standing) =>
        match RevocablePeer(standing)
        case None => Failure(Unrevocable)
        case Some(key) =>
          if !e.services[d.service].access.knows(key) then Failure(UnknownKey) else Success(standing)
  }

  function Admit(e: Exposer, p: Pools, entered: bool, d: Dial): Ruling {
    if !d.usable then Ruling(Failure(PeerKey), p, entered)
    else if IsOpened(e, d.service) then
      if p.streams == 0 then Ruling(Failure(PublicAtCapacity), p, entered)
      else if !entered && p.sessions == 0 then Ruling(Failure(PublicAtCapacity), p, entered)
      else Ruling(Success(Admitted(Witness(Open, false, d.peer), [], PublicPermit)),
                  p.(streams := p.streams - 1, sessions := if entered then p.sessions else p.sessions - 1), true)
    else if IsProvenOnly(e, d.service) then
      match RuleProven(e, d)
      case Failure(refusal) => Ruling(Failure(refusal), p, entered)
      case Success(standing) =>
        if p.proven == 0 then Ruling(Failure(ProvenAtCapacity), p, entered)
        else Ruling(Success(Admitted(standing, [], ProvenPermit(RevocablePeer(standing).value))),
                    p.(proven := p.proven - 1), entered)
    else Ruling(RuleFamily(e.gate, d), p, entered)
  }

  /** A pool of permits, taken and given back one at a time. */
  class Semaphore {
    var free: nat

    constructor (capacity: nat)
      ensures free == capacity
    {
      free := capacity;
    }

    method TryAcquire() returns (taken: bool)
      modifies this
      ensures taken <==> old(free) > 0
      ensures free == if taken then old(free) - 1 else old(free)
    {
      taken := free > 0;
      if taken {
        free := free - 1;
      }
    }

    method Release()
      modifies this
      ensures free == old(free) + 1
    {
      free := free + 1;
    }
  }

  /** The per-session half of the public cap. */
  class PublicSession {
    var held: bool

    constructor ()
      ensures !held
    {
      held := false;
    }

    /** At most one permit a session, taken by the first stream to be let in openly. */
    method Enter(sessions: Semaphore) returns (ok: bool)
      modifies this, sessions
      ensures ok <==> old(held) || old(sessions.free) > 0
      ensures held == (old(held) || ok)
      ensures sessions.free == if ok && !old(held) then old(sessions.free) - 1 else old(sessions.free)
    {
      if held {
        return true;
      }
      ok := sessions.TryAcquire();
      held := ok;
    }
  }

  class PermitPools {
    const streams: Semaphore
    const sessions: Semaphore
    const proven: Semaphore

    ghost predicate Valid() { streams != sessions && sessions != proven && streams != proven }

    function Free(): Pools
      reads streams, sessions, proven
    {
      Pools(streams.free, sessions.free, proven.free)
    }

    constructor ()
      ensures Valid() && fresh(streams) && fresh(sessions) && fresh(proven)
      ensures Free() == Pools(PUBLIC_STREAM_PERMITS, PUBLIC_SESSION_PERMITS, PROVEN_STREAM_PERMITS)
    {
      streams := new Semaphore(PUBLIC_STREAM_PERMITS);
      sessions := new Semaphore(PUBLIC_SESSION_PERMITS);
      proven := new Semaphore(PROVEN_STREAM_PERMITS);
    }

    /** The stream's permit first; it goes back when the session cannot be entered. */
    method AdmitOpen(session: PublicSession, d: Dial) returns (r: Result<Admitted, HostRefusal>)
      requires Valid()
      modifies streams, sessions, session
      ensures var p := old(Free());
              if p.streams == 0 || (!old(session.held) && p.sessions == 0)
              then r == Failure(PublicAtCapacity) && Free() == p && session.held == old(session.held)
              else && r == Success(Admitted(Witness(Open, false, d.peer), [], PublicPermit))
                   && Free() == p.(streams := p.streams - 1,
                                   sessions := if old(session.held) then p.sessions else p.sessions - 1)
                   && session.held
    {
      var witnessed := OpenGate.AdmitWitnessed(d.peer, None, d.service);
      var taken := streams.TryAcquire();
      if !taken {
        return Failure(PublicAtCapacity);
      }
      var ok := session.Enter(sessions);
      if !ok {
        streams.Release();
        return Failure(PublicAtCapacity);
      }
      r := Success(Admitted(witnessed.value, [], PublicPermit));
    }

    method AdmitProven(e: Exposer, d: Dial) returns (r: Result<Admitted, HostRefusal>)
      requires Valid() && IsProvenOnly(e, d.service)
      modifies proven
      ensures match RuleProven(e, d)
              case Failure(refusal) => r == Failure(refusal) && Free() == old(Free())
              case Success(standing) =>
                if old(Free()).proven == 0 then r == Failure(ProvenAtCapacity) && Free() == old(Free())
                else && r == Success(Admitted(standing, [], ProvenPermit(RevocablePeer(standing).value)))
                     && Free() == old(Free()).(proven := old(Free()).proven - 1)
    {
      if !Protocol.PeerProven(d.proof) {
        return Failure(PeerNotProven);
      }
      var standing := e.gate.ProvenWitness(d.peer);
      if standing.Failure? {
        return Failure(ByGate(standing.error));
      }
      var key := RevocablePeer(standing.value);
      if key.None? {
        return Failure(Unrevocable);
      }
      if !e.services[d.service].access.knows(key.value) {
        return Failure(UnknownKey);
      }
      var taken := proven.TryAcquire();
      if !taken {
        return Failure(ProvenAtCapacity);
      }
      r := Success(Admitted(standing.value, [], ProvenPermit(key.value)));
    }

    /** Opened names first, proven-only ones next, and the gate for everything else, served or not. */
    method AdmitStream(e: Exposer, session: PublicSession, d: Dial) returns (r: Result<Admitted, HostRefusal>)
      requires Valid()
      modifies streams, sessions, proven, session
      ensures Ruling(r, Free(), session.held) == Admit(e, old(Free()), old(session.held), d)
    {
      if !d.usable {
        return Failure(PeerKey);
      }
      if d.service in e.public || d.service in e.publicUnsafe {
        r := AdmitOpen(session, d);
        return;
      }
      if d.service in e.services && e.services[d.service].access.ProvenRoute? {
        r := AdmitProven(e, d);
        return;
      }
      if e.gate.WantsCapability() && !Protocol.PeerProven(d.proof) {
        return Failure(PeerNotProven);
      }
      var presented := Presented(d);
      if presented.Failure? {
        return Failure(presented.error);
      }
      var (cap, badge) := presented.value;
      var ruling := if cap.Some? && badge.Some?
                    then e.gate.AdmitForeignWitnessed(d.peer, cap.value, badge.value, d.service)
                    else e.gate.AdmitWitnessed(d.peer, cap, d.service);
      if ruling.Failure? {
        return Failure(ByGate(ruling.error));
      }
      var ruled := if e.gate.WantsCapability() then AsSeq(cap) + AsSeq(badge) else [];
      r := Success(Admitted(ruling.value, ruled, NoPermit));
    }

    /** A stream that ends, however it ends, gives back what it holds. */
    method Drop(permit: Permit)
      requires Valid()
      modifies streams, proven
      ensures Free() == Returned(old(Free()), permit)
    {
      match permit
      case NoPermit =>
      case PublicPermit => streams.Release();
      case ProvenPermit(_) => proven.Release();
    }
  }

  function Returned(p: Pools, permit: Permit): Pools {
    match permit
    case NoPermit => p
    case PublicPermit => p.(streams := p.streams + 1)
    case ProvenPermit(_) => p.(proven := p.proven + 1)
  }

  // ----- what one ruling does --------------------------------------------------------------------------

  /** A refused stream leaves every pool, and its session's standing, as it found them. */
  lemma ARefusalCostsNothing(e: Exposer, p: Pools, entered: bool, d: Dial)
    requires Admit(e, p, entered, d).outcome.Failure?
    ensures Admit(e, p, entered, d).pools == p && Admit(e, p, entered, d).entered == entered
  {}

  /** A gated route, or a name not served, is ruled on alike however full the pools are, and touches none of them. */
  lemma GatedRulingsIgnoreThePools(e: Exposer, p: Pools, q: Pools, a: bool, b: bool, d: Dial)
    requires !IsOpened(e, d.service) && !IsProvenOnly(e, d.service)
    ensures Admit(e, p, a, d).outcome == Admit(e, q, b, d).outcome
    ensures Admit(e, p, a, d).pools == p && Admit(e, p, a, d).entered == a
    ensures Admit(e, p, a, d).outcome.Success? ==> Admit(e, p, a, d).outcome.value.permit.NoPermit?
  {}

  /**
    On a proven-only route the pool is the last question: only a dialer with nothing else against it can find it
    full.
  */
  lemma AStrangerNeverMeetsThePool(e: Exposer, p: Pools, entered: bool, d: Dial)
    requires d.usable && IsProvenOnly(e, d.service) && !IsOpened(e, d.service)
    ensures var r := Admit(e, p, entered, d);
            && (r.outcome.Success? <==> MayHoldProven(e, d, d.peer) && p.proven > 0)
            && (r.outcome == Failure(ProvenAtCapacity) <==> MayHoldProven(e, d, d.peer) && p.proven == 0)
            && r.pools.streams == p.streams && r.pools.sessions == p.sessions && r.entered == entered
  {}

  /** Only a key the gate witnessed is recorded as proven, and that is the dialer's own. */
  lemma AProvenPermitIsTheDialers(e: Exposer, p: Pools, entered: bool, d: Dial)
    requires Admit(e, p, entered, d).outcome.Success?
    ensures var permit := Admit(e, p, entered, d).outcome.value.permit;
            permit.ProvenPermit? ==> permit == ProvenPermit(d.peer) && Admit(e, p, entered, d).outcome.value.ruled == []
  {
  }

  /** What a rooted gate's word on some caps comes to. */
  function OnItsWord(ruling: Result<bool, Refusal>, peer: Key, ruled: seq<Cap>): Result<Admitted, HostRefusal> {
    match ruling
    case Success(member) => Success(Admitted(Witness(Rooted, member, peer), ruled, NoPermit))
    case Failure(refusal) => Failure(ByGate(refusal))
  }

  /**
    On a gated name, or one not served, a proven peer is admitted on what a rooted gate says of its tokens: of slip and
    badge together when the slip is bound to an authority and comes with a badge, of the slip alone otherwise,
    whatever the second slot holds, and of no token when there is none. A token that counts and does not parse refuses.
  */
  lemma AGatedDialIsRuledOnItsTokens(e: Exposer, p: Pools, entered: bool, d: Dial)
    requires d.usable && !IsOpened(e, d.service) && !IsProvenOnly(e, d.service)
    requires e.gate.RootedGate? && d.proof != Protocol.Announced
    ensures var r := Admit(e, p, entered, d).outcome;
            match d.capability
            case None => r == OnItsWord(e.gate.single(d.peer, None, d.service), d.peer, [])
            case Some(Malformed) => r == Failure(MalformedCapability)
            case Some(Parsed(slip)) =>
              if slip.authorityBound && d.membership.Some? then
                match d.membership.value
                case Malformed => r == Failure(MalformedCapability)
                case Parsed(badge) =>
                  r == OnItsWord(e.gate.foreign(d.peer, slip, badge, d.service), d.peer, [slip, badge])
              else r == OnItsWord(e.gate.single(d.peer, Some(slip), d.service), d.peer, [slip])
  {
    var nothing: Option<Cap> := None;
    assert AsSeq(nothing) + AsSeq(nothing) == [];
    if d.capability.Some? && d.capability.value.Parsed? {
      var slip := d.capability.value.cap;
      assert AsSeq(Some(slip)) + AsSeq(nothing) == [slip];
      if d.membership.Some? && d.membership.value.Parsed? {
        assert AsSeq(Some(slip)) + AsSeq(Some(d.membership.value.cap)) == [slip, d.membership.value.cap];
      }
    }
  }

  /** Where the gate roots nothing, or cannot, its tokens decide nothing unless they cannot be read. */
  lemma AnUngatedDialIsNotRuledOn(e: Exposer, p: Pools, entered: bool, d: Dial)
    requires d.usable && !IsOpened(e, d.service) && !IsProvenOnly(e, d.service)
    requires e.gate.OpenGate? || d.proof == Protocol.Announced
    ensures var r := Admit(e, p, entered, d).outcome;
            if e.gate.RootedGate? then r == Failure(PeerNotProven)
            else if d.capability == Some(Malformed) then r == Failure(MalformedCapability)
            else if d.capability.Some? && d.capability.value.cap.authorityBound && d.membership == Some(Malformed)
            then r == Failure(MalformedCapability)
            else r == Success(Admitted(Witness(Open, false, d.peer), [], NoPermit))
  {}

  /** An opened name asks nothing but room, and keeps nothing of what it is shown. */
  lemma AnOpenedDialNeedsOnlyRoom(e: Exposer, p: Pools, entered: bool, d: Dial)
    requires d.usable && (d.service in e.public || d.service in e.publicUnsafe)
    ensures Admit(e, p, entered, d).outcome
         == if p.streams > 0 && (entered || p.sessions > 0)
            then Success(Admitted(Witness(Open, false, d.peer), [], PublicPermit)) else Failure(PublicAtCapacity)
  {}

  /** A proven-only route says why it refuses: the transport first, then the gate's store, then the route. */
  lemma AProvenRouteRefusesExactly(e: Exposer, p: Pools, entered: bool, d: Dial)
    requires d.usable && IsProvenOnly(e, d.service) && !IsOpened(e, d.service)
    ensures var r, proven := Admit(e, p, entered, d).outcome, d.proof != Protocol.Announced;
            && (r == Failure(PeerNotProven) <==> !proven)
            && (r == Failure(ByGate(NotGranted)) <==> proven && e.gate.OpenGate?)
            && (r == Failure(ByGate(Revoked)) <==>
                  && proven && e.gate.RootedGate?
                  && (d.peer in e.gate.store.keys || FlipSign(d.peer) in e.gate.store.keys))
            && (r == Failure(UnknownKey) <==>
                  && proven && e.gate.RootedGate?
                  && d.peer !in e.gate.store.keys && FlipSign(d.peer) !in e.gate.store.keys
                  && !e.services[d.service].access.knows(d.peer))
            && (r.Success? ==> r.value == Admitted(Witness(Proven, false, d.peer), [], ProvenPermit(d.peer)))
  {}

  /** A key no transport can have proved is refused before anything else is asked. */
  lemma AnUnusableKeyIsRefusedFirst(e: Exposer, p: Pools, entered: bool, d: Dial)
    ensures Admit(e, p, entered, d).outcome == Failure(PeerKey) <==> !d.usable
  {}

  /** A gate that does not root asks the dialer for nothing, and what it is shown it does not keep. */
  lemma WhatIsKeptIsWhatWasRuledOn(e: Exposer, p: Pools, entered: bool, d: Dial)
    requires Admit(e, p, entered, d).outcome.Success?
    ensures var a := Admit(e, p, entered, d).outcome.value;
            && (a.standing.origin.Rooted? ==>
                  if |a.ruled| == 2
                  then d.capability == Some(Parsed(a.ruled[0])) && d.membership == Some(Parsed(a.ruled[1]))
                       && a.ruled[0].authorityBound
                       && e.gate.foreign(d.peer, a.ruled[0], a.ruled[1], d.service) == Success(a.standing.member)
                  else if |a.ruled| == 1
                  then d.capability == Some(Parsed(a.ruled[0]))
                       && e.gate.single(d.peer, Some(a.ruled[0]), d.service) == Success(a.standing.member)
                  else a.ruled == [] && d.capability.None?
                       && e.gate.single(d.peer, None, d.service) == Success(a.standing.member))
            && (!a.standing.origin.Rooted? ==> a.ruled == [] && !a.standing.member)
            && a.standing.peer == d.peer
  {}

  // ----- over the life of a node -----------------------------------------------------------------------

  const RAW_STREAM_OPEN_PERMITS: nat := 16

  /** A stream in flight: whose it is, what it holds, and the policy and dial it was let in on. */
  datatype Live = Live(session: nat, permit: Permit, e: Exposer, d: Dial)

  datatype NodeState = NodeState(pools: Pools, opens: nat, sessions: set<nat>, entered: set<nat>,
                                 live: map<nat, Live>, opening: set<nat>)

  /** The gate's answers may change from one stream to the next, so each arrives with the policy of its moment. */
  datatype Event =
    | SessionOpens(session: nat)
    | Arrives(session: nat, stream: nat, e: Exposer, d: Dial)
    | OpenStarts(stream: nat)
    | OpenEnds(stream: nat)
    | StreamEnds(stream: nat)
    | SessionEnds(session: nat)

  const IDLE := NodeState(Pools(PUBLIC_STREAM_PERMITS, PUBLIC_SESSION_PERMITS, PROVEN_STREAM_PERMITS),
                          RAW_STREAM_OPEN_PERMITS, {}, {}, map[], {})

  function Public(live: map<nat, Live>): set<nat> { set s | s in live && live[s].permit.PublicPermit? }

  function ProvenOnes(live: map<nat, Live>): set<nat> { set s | s in live && live[s].permit.ProvenPermit? }

  function OfSession(live: map<nat, Live>, session: nat): set<nat> { set s | s in live && live[s].session == session }

  function Dropped(s: NodeState, gone: set<nat>): NodeState {
    s.(pools := s.pools.(streams := s.pools.streams + |Public(s.live) * gone|,
                         proven := s.pools.proven + |ProvenOnes(s.live) * gone|),
       opens := s.opens + |s.opening * gone|,
       live := s.live - gone, opening := s.opening - gone)
  }

  function Step(s: NodeState, event: Event): NodeState {
    match event
    case SessionOpens(session) => if session in s.sessions then s else s.(sessions := s.sessions + {session})
    case Arrives(session, stream, e, d) =>
      if session !in s.sessions || stream in s.live then s
      else
        var ruling := Admit(e, s.pools, session in s.entered, d);
        if ruling.outcome.Failure? then s
        else s.(pools := ruling.pools,
                entered := if ruling.entered then s.entered + {session} else s.entered,
                live := s.live[stream := Live(session, ruling.outcome.value.permit, e, d)])
    case OpenStarts(stream) =>
      if stream !in s.live || stream in s.opening || s.opens == 0 then s
      else s.(opens := s.opens - 1, opening := s.opening + {stream})
    case OpenEnds(stream) =>
      if stream !in s.opening then s else s.(opens := s.opens + 1, opening := s.opening - {stream})
    case StreamEnds(stream) => Dropped(s, {stream})
    case SessionEnds(session) =>
      var left := Dropped(s, OfSession(s.live, session));
      left.(sessions := s.sessions - {session}, entered := s.entered - {session},
            pools := if session in s.entered then left.pools.(sessions := left.pools.sessions + 1) else left.pools)
  }

  function Run(events: seq<Event>): NodeState {
    if events == [] then IDLE else Step(Run(events[..|events| - 1]), events[|events| - 1])
  }

  /** A stream of an open session that is admitted is in flight with what it was admitted on, and with nothing else. */
  lemma AnAdmittedStreamIsInFlight(s: NodeState, session: nat, stream: nat, e: Exposer, d: Dial)
    requires stream !in s.live
    ensures var (now, r) := (Step(Step(s, SessionOpens(session)), Arrives(session, stream, e, d)),
                             Admit(e, s.pools, session in s.entered, d));
            if r.outcome.Success? then
              && now.live == s.live[stream := Live(session, r.outcome.value.permit, e, d)] && now.pools == r.pools
              && session in now.sessions && (session in now.entered <==> r.entered || session in s.entered)
            else now == s.(sessions := s.sessions + {session})
  {
    assert session in s.sessions ==> s.sessions + {session} == s.sessions;
  }

  /** A stream that ends, however it ends, gives back the one permit it holds, and an open still running its own. */
  lemma AnEndedStreamGivesItsPermitBack(s: NodeState, stream: nat)
    requires stream in s.live
    ensures var t := Step(s, StreamEnds(stream));
            && t.live == s.live - {stream} && t.pools == Returned(s.pools, s.live[stream].permit)
            && t.opens == s.opens + (if stream in s.opening then 1 else 0) && t.opening == s.opening - {stream}
            && t.sessions == s.sessions && t.entered == s.entered
  {
    OneOf(Public(s.live), stream);
    OneOf(ProvenOnes(s.live), stream);
    OneOf(s.opening, stream);
  }

  lemma OneOf(a: set<nat>, x: nat)
    ensures |a * {x}| == if x in a then 1 else 0
  {
    assert a * {x} == if x in a then {x} else {};
  }

  /** A raw stream's open takes a permit if there is one, keeps it while it runs, and gives back that one. */
  lemma AnOpeningTakesOnePermit(s: NodeState, stream: nat)
    requires stream in s.live && stream !in s.opening
    ensures var t := Step(s, OpenStarts(stream));
            if s.opens > 0 then t == s.(opens := s.opens - 1, opening := t.opening) && stream in t.opening
                                && Step(t, OpenEnds(stream)) == s
            else t == s
  {
    assert (s.opening + {stream}) - {stream} == s.opening;
  }

  /** Free and held permits make up each pool's capacity. */
  ghost predicate Conserved(s: NodeState) {
    && s.pools.streams + |Public(s.live)| == PUBLIC_STREAM_PERMITS
    && s.pools.sessions + |s.entered| == PUBLIC_SESSION_PERMITS
    && s.pools.proven + |ProvenOnes(s.live)| == PROVEN_STREAM_PERMITS
    && s.opens + |s.opening| == RAW_STREAM_OPEN_PERMITS
  }

  /** What a stream in flight holds it came by fairly. */
  predicate FairlyHeld(l: Live, sessions: set<nat>, entered: set<nat>) {
    && l.session in sessions
    && (l.permit.PublicPermit? <==> IsOpened(l.e, l.d.service))
    && (l.permit.PublicPermit? ==> l.session in entered)
    && (l.permit.ProvenPermit? ==> MayHoldProven(l.e, l.d, l.permit.key))
  }

  ghost predicate Earned(s: NodeState) {
    && s.entered <= s.sessions
    && s.opening <= s.live.Keys
    && forall k :: k in s.live ==> FairlyHeld(s.live[k], s.sessions, s.entered)
  }

  /** The transport proved the key, the store takes it and the route knows it. */
  predicate MayHoldProven(e: Exposer, d: Dial, key: Key) {
    && key == d.peer && Protocol.PeerProven(d.proof)
    && e.gate.RootedGate? && e.gate.Takes(key)
    && IsProvenOnly(e, d.service) && e.services[d.service].access.knows(key)
  }

  lemma HoldersLeft(live: map<nat, Live>, gone: set<nat>)
    ensures |Public(live - gone)| + |Public(live) * gone| == |Public(live)|
    ensures |ProvenOnes(live - gone)| + |ProvenOnes(live) * gone| == |ProvenOnes(live)|
  {
    Split(Public(live), gone);
    assert Public(live - gone) == Public(live) - gone;
    Split(ProvenOnes(live), gone);
    assert ProvenOnes(live - gone) == ProvenOnes(live) - gone;
  }

  lemma Split(a: set<nat>, gone: set<nat>)
    ensures |a - gone| + |a * gone| == |a|
  {
    assert (a - gone) + (a * gone) == a;
  }

  lemma DroppingConserves(s: NodeState, gone: set<nat>)
    requires Conserved(s)
    ensures Conserved(Dropped(s, gone))
  {
    HoldersLeft(s.live, gone);
    Split(s.opening, gone);
  }

  lemma HoldersGrowByOne(live: map<nat, Live>, stream: nat, l: Live)
    requires stream !in live
    ensures |Public(live[stream := l])| == |Public(live)| + if l.permit.PublicPermit? then 1 else 0
    ensures |ProvenOnes(live[stream := l])| == |ProvenOnes(live)| + if l.permit.ProvenPermit? then 1 else 0
  {
    PublicGrowsByOne(live, stream, l);
    ProvenGrowsByOne(live, stream, l);
  }

  lemma PublicGrowsByOne(live: map<nat, Live>, stream: nat, l: Live)
    requires stream !in live
    ensures |Public(live[stream := l])| == |Public(live)| + if l.permit.PublicPermit? then 1 else 0
  {
    if l.permit.PublicPermit? {
      assert Public(live[stream := l]) == Public(live) + {stream};
    } else {
      assert Public(live[stream := l]) == Public(live);
    }
  }

  lemma ProvenGrowsByOne(live: map<nat, Live>, stream: nat, l: Live)
    requires stream !in live
    ensures |ProvenOnes(live[stream := l])| == |ProvenOnes(live)| + if l.permit.ProvenPermit? then 1 else 0
  {
    if l.permit.ProvenPermit? {
      assert ProvenOnes(live[stream := l]) == ProvenOnes(live) + {stream};
    } else {
      assert ProvenOnes(live[stream := l]) == ProvenOnes(live);
    }
  }

  /** An admission takes the one permit it hands out, and the session's own when this is its first open stream. */
  lemma AdmissionTakesWhatItHolds(e: Exposer, p: Pools, entered: bool, d: Dial)
    requires Admit(e, p, entered, d).outcome.Success?
    ensures var r := Admit(e, p, entered, d);
            && Returned(r.pools, r.outcome.value.permit) == p.(sessions := r.pools.sessions)
            && r.pools.sessions + (if r.entered && !entered then 1 else 0) == p.sessions
            && (entered ==> r.entered)
  {}

  lemma ArrivalConserves(s: NodeState, session: nat, stream: nat, e: Exposer, d: Dial)
    requires Conserved(s) && stream !in s.live
    ensures Conserved(Step(s, Arrives(session, stream, e, d)))
  {
    var ruling := Admit(e, s.pools, session in s.entered, d);
    if ruling.outcome.Success? && session in s.sessions {
      AdmissionTakesWhatItHolds(e, s.pools, session in s.entered, d);
      ARulingHeldConserves(s, session, stream, ruling, Live(session, ruling.outcome.value.permit, e, d));
    }
  }

  lemma ARulingHeldConserves(s: NodeState, session: nat, stream: nat, r: Ruling, l: Live)
    requires Conserved(s) && stream !in s.live
    requires Returned(r.pools, l.permit) == s.pools.(sessions := r.pools.sessions)
    requires r.pools.sessions + (if r.entered && session !in s.entered then 1 else 0) == s.pools.sessions
    ensures Conserved(s.(pools := r.pools, entered := if r.entered then s.entered + {session} else s.entered,
                         live := s.live[stream := l]))
  {
    HoldersGrowByOne(s.live, stream, l);
    if session in s.entered {
      assert s.entered + {session} == s.entered;
    }
  }

  lemma WhoIsLetInIsFairlyHeld(e: Exposer, p: Pools, entered: bool, d: Dial)
    requires Admit(e, p, entered, d).outcome.Success?
    ensures var permit := Admit(e, p, entered, d).outcome.value.permit;
            && (permit.PublicPermit? <==> IsOpened(e, d.service))
            && (permit.PublicPermit? ==> Admit(e, p, entered, d).entered)
            && (permit.ProvenPermit? ==> MayHoldProven(e, d, permit.key))
  {}

  lemma StepConserves(s: NodeState, event: Event)
    requires Conserved(s) && Earned(s)
    ensures Conserved(Step(s, event))
  {
    match event
    case Arrives(session, stream, e, d) =>
      if stream !in s.live {
        ArrivalConserves(s, session, stream, e, d);
      }
    case StreamEnds(stream) => DroppingConserves(s, {stream});
    case SessionEnds(session) => SessionEndConserves(s, session);
    case _ =>
  }

  lemma SessionEndConserves(s: NodeState, session: nat)
    requires Conserved(s)
    ensures Conserved(Step(s, SessionEnds(session)))
  {
    var left := Dropped(s, OfSession(s.live, session));
    DroppingConserves(s, OfSession(s.live, session));
    Split(s.entered, {session});
    assert s.entered * {session} == if session in s.entered then {session} else {};
  }

  lemma ArrivalStaysEarned(s: NodeState, session: nat, stream: nat, e: Exposer, d: Dial)
    requires Earned(s)
    ensures Earned(Step(s, Arrives(session, stream, e, d)))
  {
    var ruling := Admit(e, s.pools, session in s.entered, d);
    if ruling.outcome.Success? && session in s.sessions {
      WhoIsLetInIsFairlyHeld(e, s.pools, session in s.entered, d);
      AdmissionTakesWhatItHolds(e, s.pools, session in s.entered, d);
      assert FairlyHeld(Live(session, ruling.outcome.value.permit, e, d), s.sessions,
                        if ruling.entered then s.entered + {session} else s.entered);
    }
  }

  lemma SessionEndStaysEarned(s: NodeState, session: nat)
    requires Earned(s)
    ensures Earned(Step(s, SessionEnds(session)))
  {
    var after := Step(s, SessionEnds(session));
    forall k | k in after.live ensures FairlyHeld(after.live[k], after.sessions, after.entered) {
      assert FairlyHeld(s.live[k], s.sessions, s.entered);
      assert k !in OfSession(s.live, session);
    }
  }

  lemma StepStaysEarned(s: NodeState, event: Event)
    requires Earned(s)
    ensures Earned(Step(s, event))
  {
    match event
    case SessionOpens(_) =>
    case Arrives(session, stream, e, d) =>
      ArrivalStaysEarned(s, session, stream, e, d);
    case SessionEnds(session) =>
      SessionEndStaysEarned(s, session);
    case _ =>
  }

  /**
    Over every run of sessions and streams no permit is lost, minted or held twice, a session holds at most one
    public-session permit, and a proven slot is held only for a key that earned it.
  */
  lemma {:induction false} PermitsAreConserved(events: seq<Event>)
    ensures Conserved(Run(events)) && Earned(Run(events))
  {
    if events != [] {
      PermitsAreConserved(events[..|events| - 1]);
      StepConserves(Run(events[..|events| - 1]), events[|events| - 1]);
      StepStaysEarned(Run(events[..|events| - 1]), events[|events| - 1]);
    } else {
      assert Public(map[]) == {} && ProvenOnes(map[]) == {};
    }
  }

  /** With every session over, every pool is full again. */
  lemma AnEmptyNodeIsFull(events: seq<Event>)
    requires Run(events).sessions == {}
    ensures Run(events) == IDLE
  {
    PermitsAreConserved(events);
    var s := Run(events);
    assert forall k :: k in s.live ==> FairlyHeld(s.live[k], s.sessions, s.entered);
    assert s.live == map[];
    assert Public(s.live) == {} && ProvenOnes(s.live) == {};
  }
}
