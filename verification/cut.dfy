/**
  The live cut (src/tunnel/cut.rs): the record a session keeps of what its streams were admitted on, the
  lease folded over it, and the verdict a sweep reaches. The record is specified by the streams it was made
  from, and the verdict by what has become of each of them.
*/
module LiveCut {
  import opened Wrappers
  import opened Octets

  /** Wall-clock time. */
  type Time = nat

  type RevocationId = nat

  const MAX_SESSION_CHAIN_IDS: nat := 1024

  /** An ed25519 public key in its compressed form. */
  type Key = b: seq<byte> | |b| == 32 witness seq(32, _ => 0)

  /** The other point with the same y coordinate: only the sign of x, the top bit of the last octet, differs. */
  function FlipSign(key: Key): Key {
    key[31 := if key[31] >= 0x80 then key[31] - 0x80 else key[31] + 0x80]
  }

  lemma FlippingTwiceIsNothing(key: Key)
    ensures FlipSign(FlipSign(key)) == key
    ensures FlipSign(key) != key
    ensures FlipSign(key)[..31] == key[..31] && FlipSign(key)[31] as int % 0x80 == key[31] as int % 0x80
  {
    assert FlipSign(key)[31] != key[31];
    assert FlipSign(FlipSign(key))[31] == key[31];
  }

  /**
    A parsed capability: its root, its blocks' revocation ids, when the earliest bound in its chain is, and whether it
    is a slip that names a foreign authority.
  */
  datatype Cap = Cap(root: Key, ids: seq<RevocationId>,
                     validUntil: Result<Option<Time>, CapError>, authorityBound: bool)

  datatype CapError = CapError

  datatype Lease = Unruled | Until(time: Time) | Unbounded {
    function Extend(stream: Option<Time>): Lease {
      match (this, stream)
      case (Until(held), Some(time)) => Until(if held <= time then held else time)
      case (Until(held), None) => this
      case (_, Some(time)) => Until(time)
      case (_, None) => Unbounded
    }

    predicate Lapsed(now: Time) { Until? && now > time }
  }

  type Read = Result<Option<Time>, CapError>

  /** The earlier of two bounds, either of which may be absent. */
  function Sooner(held: Option<Time>, until: Option<Time>): Option<Time> {
    if held.Some? && until.Some? then Some(if held.value <= until.value then held.value else until.value)
    else if held.Some? then held
    else until
  }

  /** The earliest of a stream's expiry reads, or the first failure among them. */
  function Earliest(held: Option<Time>, expiries: seq<Read>): Read
    decreases |expiries|
  {
    if expiries == [] then Success(held)
    else match expiries[0]
      case Failure(error) => Failure(error)
      case Success(until) => Earliest(Sooner(held, until), expiries[1..])
  }

  function Expiries(ruled: seq<Cap>): (expiries: seq<Read>)
    ensures |expiries| == |ruled|
    ensures forall i :: 0 <= i < |ruled| ==> expiries[i] == ruled[i].validUntil
  {
    seq(|ruled|, i requires 0 <= i < |ruled| => ruled[i].validUntil)
  }

  predicate Readable(ruled: seq<Cap>) {
    forall cap :: cap in ruled ==> cap.validUntil.Success?
  }

  /** Some cap of `ruled` runs out at `time`. */
  predicate RunsOut(ruled: seq<Cap>, time: Time) {
    exists cap :: cap in ruled && cap.validUntil == Success(Some(time))
  }

  /** `until` is the first instant at which anything of `ruled` runs out, if anything ever does. */
  ghost predicate FirstEnd(until: Option<Time>, ruled: seq<Cap>) {
    match until
    case None => forall t :: !RunsOut(ruled, t)
    case Some(first) => RunsOut(ruled, first) && forall t :: RunsOut(ruled, t) ==> first <= t
  }

  lemma {:induction false} EarliestMeaning(held: Option<Time>, expiries: seq<Read>)
    ensures var r := Earliest(held, expiries);
            && (r.Success? <==> forall read :: read in expiries ==> read.Success?)
            && (r.Success? ==> r == Success(held) || r in expiries)
            && (r.Success? && r.value.None? ==> held.None? && forall read :: read in expiries ==> read == Success(None))
            && (r.Success? && held.Some? ==> r.value.Some? && r.value.value <= held.value)
            && (r.Success? ==> forall t :: Success(Some(t)) in expiries ==> r.value.Some? && r.value.value <= t)
    decreases |expiries|
  {
    if expiries != [] {
      assert expiries == [expiries[0]] + expiries[1..];
      if expiries[0].Success? {
        EarliestMeaning(Sooner(held, expiries[0].value), expiries[1..]);
      }
    }
  }

  /** A stream's bound is the first end among its caps; it cannot be read exactly when some cap's cannot. */
  lemma LeaseOfStream(ruled: seq<Cap>)
    ensures var r := Earliest(None, Expiries(ruled));
            && (r.Success? <==> Readable(ruled))
            && (r.Success? ==> FirstEnd(r.value, ruled))
  {
    var expiries := Expiries(ruled);
    EarliestMeaning(None, expiries);
    forall cap | cap in ruled ensures cap.validUntil in expiries {
      var i: nat :| i < |ruled| && ruled[i] == cap;
      assert expiries[i] == cap.validUntil;
    }
    forall t | Success(Some(t)) in expiries ensures RunsOut(ruled, t) {
      var i: nat :| i < |expiries| && expiries[i] == Success(Some(t));
      assert ruled[i] in ruled;
    }
    forall read | read in expiries ensures exists cap :: cap in ruled && cap.validUntil == read {
      var i: nat :| i < |expiries| && expiries[i] == read;
      assert ruled[i] in ruled;
    }
  }

  // ----- the record ------------------------------------------------------------------------------------

  datatype Record = Record(roots: set<Key>, ids: set<RevocationId>, anchors: set<Key>, peer: Option<Key>,
                           proven: bool, lease: Lease)

  const EMPTY := Record({}, {}, {}, None, false, Unruled)

  datatype Unrecorded = Full | UnreadableExpiry(error: CapError)

  /** What a stream is admitted on: the caps ruled on for its peer, or on a proven-only route its key alone. */
  datatype Stream = Ruled(key: Key, ruled: seq<Cap>) | ProvenBy(key: Key)

  function IdsOf(ruled: seq<Cap>): set<RevocationId> {
    set i, k | 0 <= i < |ruled| && 0 <= k < |ruled[i].ids| :: ruled[i].ids[k]
  }

  function RootsOf(ruled: seq<Cap>): set<Key> {
    set i | 0 <= i < |ruled| :: ruled[i].root
  }

  lemma OpenRulesOnNothing()
    ensures IdsOf([]) == {} && RootsOf([]) == {}
  {}

  /** The record with one more stream kept, or why the stream is refused. */
  function Keep(r: Record, stream: Stream): Result<Record, Unrecorded> {
    match stream
    case ProvenBy(key) => Success(r.(peer := Some(key), proven := true))
    case Ruled(peer, ruled) =>
      match Earliest(None, Expiries(ruled))
      case Failure(error) => Failure(UnreadableExpiry(error))
      case Success(until) =>
        if |r.ids + IdsOf(ruled)| > MAX_SESSION_CHAIN_IDS then Failure(Full)
        else if ruled == [] then Success(r)
        else Success(Record(r.roots + RootsOf(ruled), r.ids + IdsOf(ruled), r.anchors + {ruled[0].root},
                            Some(peer), r.proven, r.lease.Extend(until)))
  }

  /** A session's record, as its streams fill it in. */
  class AdmittedChains {
    var roots: set<Key>
    var ids: set<RevocationId>
    var anchors: set<Key>
    var peer: Option<Key>
    var proven: bool
    var lease: Lease

    function State(): Record
      reads this
    {
      Record(roots, ids, anchors, peer, proven, lease)
    }

    constructor ()
      ensures State() == EMPTY
    {
      roots, ids, anchors, peer, proven, lease := {}, {}, {}, None, false, Unruled;
    }

    /** Keep everything one stream was admitted on, or keep nothing and refuse it. */
    method RecordAll(peer: Key, ruled: seq<Cap>) returns (r: Result<(), Unrecorded>)
      requires |ids| <= MAX_SESSION_CHAIN_IDS
      modifies this
      ensures |ids| <= MAX_SESSION_CHAIN_IDS
      ensures match Keep(old(State()), Ruled(peer, ruled))
              case Success(kept) => r.Success? && State() == kept
              case Failure(why) => r == Failure(why) && State() == old(State())
    {
      var until := Earliest(None, Expiries(ruled));
      if until.Failure? {
        return Failure(UnreadableExpiry(until.error));
      }
      var newIds := IdsOf(ruled) - ids;
      assert ids + IdsOf(ruled) == ids + newIds;
      if |ids| + |newIds| > MAX_SESSION_CHAIN_IDS {
        return Failure(Full);
      }
      ids := ids + newIds;
      roots := roots + RootsOf(ruled);
      if ruled != [] {
        anchors := anchors + {ruled[0].root};
        this.peer := Some(peer);
        lease := lease.Extend(until.value);
      } else {
        OpenRulesOnNothing();
      }
      r := Success(());
    }

    method RecordProven(peer: Key)
      modifies this`peer, this`proven
      ensures Keep(old(State()), ProvenBy(peer)) == Success(State())
    {
      this.peer := Some(peer);
      proven := true;
    }
  }

  // ----- the verdict -----------------------------------------------------------------------------------

  /** A revocation store: the ids and the keys it refuses. */
  datatype Denylist = Denylist(ids: set<RevocationId>, keys: set<Key>)

  /** The oracle behind a cut: the store it shares with the gate, and the roots the gate still trusts. */
  datatype Oracle = Oracle(store: Denylist, trusted: Key -> bool) {
    predicate Cuts(r: Record) { (r.ids * store.ids != {}) || (r.roots * store.keys != {}) }

    predicate RevokedPeer(key: Key) { key in store.keys }
  }

  datatype Cut = Recalled | Untrusted | PeerRevoked | Expired

  /** The keys whose revocation ends the session. The twin of a usable key is itself usable, so it always is one. */
  function PeerKeys(r: Record): set<Key> {
    if r.peer.None? then {}
    else {r.peer.value} + (if r.proven then {FlipSign(r.peer.value)} else {})
  }

  function Verdict(o: Oracle, r: Record, now: Time): Option<Cut> {
    if o.Cuts(r) then Some(Recalled)
    else if exists anchor :: anchor in r.anchors && !o.trusted(anchor) then Some(Untrusted)
    else if exists key :: key in PeerKeys(r) && o.RevokedPeer(key) then Some(PeerRevoked)
    else if r.lease.Lapsed(now) then Some(Expired)
    else None
  }

  // ----- what a record is made of ----------------------------------------------------------------------

  /** Whether the stream rests on the key its session proved. An open stream does not. */
  predicate Bears(stream: Stream) { stream.ProvenBy? || stream.ruled != [] }

  /** The stream was ruled on a cap with this revocation id. */
  predicate HasId(stream: Stream, id: RevocationId) {
    stream.Ruled? && exists cap :: cap in stream.ruled && id in cap.ids
  }

  /** The stream was ruled on a cap under this root. */
  predicate HasRoot(stream: Stream, root: Key) {
    stream.Ruled? && exists cap :: cap in stream.ruled && cap.root == root
  }

  /** The stream's first cap was verified under this root; a badge after it is no anchor. */
  predicate HasAnchor(stream: Stream, root: Key) {
    stream.Ruled? && stream.ruled != [] && stream.ruled[0].root == root
  }

  predicate EndsAt(stream: Stream, time: Time) { stream.Ruled? && RunsOut(stream.ruled, time) }

  /** The lease holds until the first end among all the caps of the served streams. */
  ghost predicate LeaseHolds(lease: Lease, served: seq<Stream>) {
    match lease
    case Unruled => forall s :: s in served && s.Ruled? ==> s.ruled == []
    case Unbounded =>
      && (exists s :: s in served && s.Ruled? && s.ruled != [])
      && (forall s, t :: s in served ==> !EndsAt(s, t))
    case Until(time) =>
      && (exists s :: s in served && EndsAt(s, time))
      && (forall s, t :: s in served && EndsAt(s, t) ==> time <= t)
  }

  /** `kept` is what the served streams have, all of it and nothing else. */
  ghost predicate Gathers<T(!new)>(kept: set<T>, has: (Stream, T) -> bool, served: seq<Stream>) {
    forall x :: x in kept <==> exists s :: s in served && has(s, x)
  }

  ghost predicate PeerHolds(peer: Option<Key>, proven: bool, served: seq<Stream>) {
    && (proven <==> exists s :: s in served && s.ProvenBy?)
    && (peer.Some? <==> exists s :: s in served && Bears(s))
    && (peer.Some? ==> exists s :: s in served && Bears(s) && s.key == peer.value)
  }

  /** The record is the union over the served streams, and of nothing else. */
  ghost predicate IsUnion(r: Record, served: seq<Stream>) {
    && |r.ids| <= MAX_SESSION_CHAIN_IDS
    && Gathers(r.ids, HasId, served)
    && Gathers(r.roots, HasRoot, served)
    && Gathers(r.anchors, HasAnchor, served)
    && PeerHolds(r.peer, r.proven, served)
    && LeaseHolds(r.lease, served)
  }

  lemma GatherOne<T(!new)>(kept: set<T>, has: (Stream, T) -> bool, served: seq<Stream>, stream: Stream, more: set<T>)
    requires Gathers(kept, has, served)
    requires forall x :: x in more <==> x in kept || has(stream, x)
    ensures Gathers(more, has, served + [stream])
  {
    var after := served + [stream];
    forall x ensures x in more <==> exists s :: s in after && has(s, x) {
      if has(stream, x) {
        assert stream in after;
      }
      if x in kept {
        var s :| s in served && has(s, x);
        assert s in after;
      }
      if s :| s in after && has(s, x) {
        assert s in served || s == stream;
      }
    }
  }

  lemma PeerOne(r: Record, served: seq<Stream>, stream: Stream)
    requires PeerHolds(r.peer, r.proven, served) && Keep(r, stream).Success?
    ensures var kept := Keep(r, stream).value; PeerHolds(kept.peer, kept.proven, served + [stream])
  {
    var after := served + [stream];
    assert stream in after;
    assert forall s :: s in after <==> s in served || s == stream;
  }

  lemma LeaseOne(r: Record, served: seq<Stream>, stream: Stream)
    requires LeaseHolds(r.lease, served) && Keep(r, stream).Success?
    ensures LeaseHolds(Keep(r, stream).value.lease, served + [stream])
  {
    var after := served + [stream];
    assert forall s :: s in after <==> s in served || s == stream;
    if stream.Ruled? {
      LeaseOfStream(stream.ruled);
      if stream.ruled != [] {
        ExtendKeepsLease(r.lease, served, stream, Earliest(None, Expiries(stream.ruled)).value);
        return;
      }
    }
    assert forall t :: !EndsAt(stream, t);
    assert forall s :: s in served ==> s in after;
  }

  lemma ExtendKeepsLease(lease: Lease, served: seq<Stream>, stream: Stream, until: Option<Time>)
    requires LeaseHolds(lease, served)
    requires stream.Ruled? && stream.ruled != [] && FirstEnd(until, stream.ruled)
    ensures LeaseHolds(lease.Extend(until), served + [stream])
  {
    var after := served + [stream];
    assert stream in after;
    forall s | s in after ensures s in served || s == stream {}
    assert forall t :: EndsAt(stream, t) <==> RunsOut(stream.ruled, t);
    assert forall s :: s in served ==> s in after;
  }

  /** What is gathered from a list of caps is what each of them has. */
  lemma EveryCapIsGathered(ruled: seq<Cap>)
    ensures forall id :: id in IdsOf(ruled) <==> exists cap :: cap in ruled && id in cap.ids
    ensures forall root :: root in RootsOf(ruled) <==> exists cap :: cap in ruled && cap.root == root
  {
    forall cap, id | cap in ruled && id in cap.ids ensures id in IdsOf(ruled) {
      var i: nat :| i < |ruled| && ruled[i] == cap;
      var k: nat :| k < |cap.ids| && cap.ids[k] == id;
      assert ruled[i].ids[k] == id;
    }
    forall id | id in IdsOf(ruled) ensures exists cap :: cap in ruled && id in cap.ids {
      var i: nat, k: nat :| i < |ruled| && k < |ruled[i].ids| && ruled[i].ids[k] == id;
      assert ruled[i] in ruled && id in ruled[i].ids;
    }
    forall cap | cap in ruled ensures cap.root in RootsOf(ruled) {
      var i: nat :| i < |ruled| && ruled[i] == cap;
      assert ruled[i].root == cap.root;
    }
    forall root | root in RootsOf(ruled) ensures exists cap :: cap in ruled && cap.root == root {
      var i: nat :| i < |ruled| && ruled[i].root == root;
      assert ruled[i] in ruled;
    }
  }

  lemma KeptParts(r: Record, stream: Stream)
    requires Keep(r, stream).Success? && |r.ids| <= MAX_SESSION_CHAIN_IDS
    ensures var kept := Keep(r, stream).value;
            && |kept.ids| <= MAX_SESSION_CHAIN_IDS
            && (forall id :: id in kept.ids <==> id in r.ids || HasId(stream, id))
            && (forall root :: root in kept.roots <==> root in r.roots || HasRoot(stream, root))
            && (forall root :: root in kept.anchors <==> root in r.anchors || HasAnchor(stream, root))
  {
    if stream.Ruled? {
      EveryCapIsGathered(stream.ruled);
    }
  }

  lemma KeepingAddsExactlyThisStream(r: Record, served: seq<Stream>, stream: Stream)
    requires IsUnion(r, served) && Keep(r, stream).Success?
    ensures IsUnion(Keep(r, stream).value, served + [stream])
  {
    KeptParts(r, stream);
    var kept := Keep(r, stream).value;
    GatherOne(r.ids, HasId, served, stream, kept.ids);
    GatherOne(r.roots, HasRoot, served, stream, kept.roots);
    GatherOne(r.anchors, HasAnchor, served, stream, kept.anchors);
    PeerOne(r, served, stream);
    LeaseOne(r, served, stream);
  }

  // ----- what the record is good for -------------------------------------------------------------------

  ghost predicate OneKey(served: seq<Stream>, key: Key) { forall s :: s in served ==> s.key == key }

  /** A stream is refused its place exactly when a cap's expiry cannot be read or the ids would not fit. */
  lemma RefusedExactly(r: Record, stream: Stream)
    requires |r.ids| <= MAX_SESSION_CHAIN_IDS
    ensures Keep(r, stream).Failure?
       <==> stream.Ruled? && (!Readable(stream.ruled) || |r.ids + IdsOf(stream.ruled)| > MAX_SESSION_CHAIN_IDS)
  {
    if stream.Ruled? {
      LeaseOfStream(stream.ruled);
    }
  }

  /**
    The lease lapses as soon as any cap of any served stream has run out, whatever else is served and in whatever
    order.
  */
  lemma LapsedExactly(r: Record, served: seq<Stream>, now: Time)
    requires IsUnion(r, served)
    ensures r.lease.Lapsed(now) <==> exists s, t: Time :: s in served && EndsAt(s, t) && t < now
  {
    if r.lease.Lapsed(now) {
      var s :| s in served && EndsAt(s, r.lease.time);
    }
    if s, t: Time :| s in served && EndsAt(s, t) && t < now {
      assert s.ruled != [];
    }
  }

  lemma GathersOnce<T(!new)>(a: set<T>, b: set<T>, has: (Stream, T) -> bool, x: seq<Stream>, y: seq<Stream>)
    requires Gathers(a, has, x) && Gathers(b, has, y)
    requires forall s :: s in x <==> s in y
    ensures a == b
  {
    forall v ensures v in a <==> v in b {
      assert v in a <==> exists s :: s in x && has(s, v);
      assert v in b <==> exists s :: s in y && has(s, v);
    }
  }

  lemma LeaseOnce(a: Lease, b: Lease, x: seq<Stream>, y: seq<Stream>)
    requires LeaseHolds(a, x) && LeaseHolds(b, y)
    requires forall s :: s in x <==> s in y
    ensures a == b
  {
    if a.Until? {
      var s :| s in x && EndsAt(s, a.time);
      assert b.Until?;
    }
    if b.Until? {
      var s :| s in y && EndsAt(s, b.time);
      assert a.Until?;
    }
  }

  /**
    One peer's record depends on which streams were served and on nothing else: not their order, not their number.
  */
  lemma OrderAndRepetitionDoNotMatter(a: Record, b: Record, x: seq<Stream>, y: seq<Stream>, key: Key)
    requires IsUnion(a, x) && IsUnion(b, y) && OneKey(x, key)
    requires forall s :: s in x <==> s in y
    ensures a == b
  {
    GathersOnce(a.ids, b.ids, HasId, x, y);
    GathersOnce(a.roots, b.roots, HasRoot, x, y);
    GathersOnce(a.anchors, b.anchors, HasAnchor, x, y);
    LeaseOnce(a.lease, b.lease, x, y);
    assert a.proven == b.proven;
    assert a.peer.Some? <==> b.peer.Some?;
  }

  /** A stream already served is kept again for nothing, even by a record that is full. */
  lemma KeepingAgainIsFree(r: Record, served: seq<Stream>, stream: Stream, key: Key)
    requires IsUnion(r, served) && OneKey(served, key) && stream in served
    requires stream.Ruled? ==> Readable(stream.ruled)
    ensures Keep(r, stream) == Success(r)
  {
    if stream.Ruled? {
      EveryCapIsGathered(stream.ruled);
      forall id | id in IdsOf(stream.ruled) ensures id in r.ids {
        assert HasId(stream, id);
      }
      assert r.ids + IdsOf(stream.ruled) == r.ids;
    }
    RefusedExactly(r, stream);
    var kept := Keep(r, stream).value;
    KeepingAddsExactlyThisStream(r, served, stream);
    var again := served + [stream];
    assert forall s :: s in again <==> s in served;
    OrderAndRepetitionDoNotMatter(r, kept, served, again, key);
  }

  // ----- what a sweep finds ----------------------------------------------------------------------------

  /** Some cap the stream was ruled on has a revoked id, or a revoked key for its root. */
  predicate RecalledStream(o: Oracle, s: Stream) {
    s.Ruled?
    && exists cap :: cap in s.ruled && (cap.root in o.store.keys || exists id :: id in cap.ids && id in o.store.ids)
  }

  /** The gate no longer trusts the root the stream's first cap was verified under. */
  predicate UntrustedStream(o: Oracle, s: Stream) { s.Ruled? && s.ruled != [] && !o.trusted(s.ruled[0].root) }

  /** A stream that rests on its peer's key falls with that key, and a proven-only one with the key's twin too. */
  predicate RevokedStream(o: Oracle, s: Stream) {
    Bears(s) && (o.RevokedPeer(s.key) || (s.ProvenBy? && o.RevokedPeer(FlipSign(s.key))))
  }

  ghost predicate ExpiredStream(s: Stream, now: Time) { exists t: Time :: EndsAt(s, t) && t < now }

  /** Nothing the stream was admitted on has gone bad by `now`. */
  ghost predicate Good(o: Oracle, s: Stream, now: Time) {
    !RecalledStream(o, s) && !UntrustedStream(o, s) && !RevokedStream(o, s) && !ExpiredStream(s, now)
  }

  lemma Overlap<T(!new)>(kept: set<T>, has: (Stream, T) -> bool, served: seq<Stream>, bad: set<T>)
    requires Gathers(kept, has, served)
    ensures kept * bad != {} <==> exists s, x :: s in served && x in bad && has(s, x)
  {
    if kept * bad != {} {
      var x :| x in kept * bad;
      var s :| s in served && has(s, x);
    }
    if s, x :| s in served && x in bad && has(s, x) {
      assert x in kept * bad;
    }
  }

  lemma RecalledExactly(o: Oracle, r: Record, served: seq<Stream>)
    requires IsUnion(r, served)
    ensures o.Cuts(r) <==> exists s :: s in served && RecalledStream(o, s)
  {
    Overlap(r.ids, HasId, served, o.store.ids);
    Overlap(r.roots, HasRoot, served, o.store.keys);
    forall s | s in served
      ensures RecalledStream(o, s)
         <==> || (exists id :: id in o.store.ids && HasId(s, id))
              || (exists root :: root in o.store.keys && HasRoot(s, root))
    {
      if s.Ruled? {
        forall cap | cap in s.ruled ensures HasRoot(s, cap.root) && forall id :: id in cap.ids ==> HasId(s, id) {}
      }
    }
  }

  lemma UntrustedExactly(o: Oracle, r: Record, served: seq<Stream>)
    requires IsUnion(r, served)
    ensures (exists anchor :: anchor in r.anchors && !o.trusted(anchor))
       <==> exists s :: s in served && UntrustedStream(o, s)
  {
    if anchor :| anchor in r.anchors && !o.trusted(anchor) {
      var s :| s in served && HasAnchor(s, anchor);
      assert UntrustedStream(o, s);
    }
    if s :| s in served && UntrustedStream(o, s) {
      assert HasAnchor(s, s.ruled[0].root);
    }
  }

  lemma PeerRevokedExactly(o: Oracle, r: Record, served: seq<Stream>, key: Key)
    requires IsUnion(r, served) && OneKey(served, key)
    ensures (exists k :: k in PeerKeys(r) && o.RevokedPeer(k)) <==> exists s :: s in served && RevokedStream(o, s)
  {
    if k :| k in PeerKeys(r) && o.RevokedPeer(k) {
      assert r.peer == Some(key);
      if k == key {
        var s :| s in served && Bears(s);
        assert RevokedStream(o, s);
      } else {
        var s :| s in served && s.ProvenBy?;
        assert RevokedStream(o, s);
      }
    }
    if s :| s in served && RevokedStream(o, s) {
      assert r.peer == Some(key) && key in PeerKeys(r);
      if !o.RevokedPeer(key) {
        assert FlipSign(key) in PeerKeys(r);
      }
    }
  }

  /** Whatever the verdict, some served stream is why, and nothing served is bad for a graver reason. */
  lemma Culprit(o: Oracle, r: Record, served: seq<Stream>, key: Key, now: Time) returns (s: Stream)
    requires IsUnion(r, served) && OneKey(served, key) && Verdict(o, r, now).Some?
    ensures s in served
    ensures match Verdict(o, r, now).value
            case Recalled => RecalledStream(o, s)
            case Untrusted => UntrustedStream(o, s)
            case PeerRevoked => RevokedStream(o, s)
            case Expired => ExpiredStream(s, now)
    ensures !Verdict(o, r, now).value.Recalled? ==> forall s :: s in served ==> !RecalledStream(o, s)
    ensures Verdict(o, r, now).value.PeerRevoked? || Verdict(o, r, now).value.Expired?
        ==> forall s :: s in served ==> !UntrustedStream(o, s)
    ensures Verdict(o, r, now).value.Expired? ==> forall s :: s in served ==> !RevokedStream(o, s)
  {
    RecalledExactly(o, r, served);
    UntrustedExactly(o, r, served);
    PeerRevokedExactly(o, r, served, key);
    match Verdict(o, r, now).value
    case Recalled =>
      s :| s in served && RecalledStream(o, s);
    case Untrusted =>
      s :| s in served && UntrustedStream(o, s);
    case PeerRevoked =>
      s :| s in served && RevokedStream(o, s);
    case Expired =>
      LapsedExactly(r, served, now);
      var t: Time;
      s, t :| s in served && EndsAt(s, t) && t < now;
  }

  /** A sweep leaves a session be exactly when nothing any of its streams was admitted on has gone bad. */
  lemma SweepIsExact(o: Oracle, r: Record, served: seq<Stream>, key: Key, now: Time)
    requires IsUnion(r, served) && OneKey(served, key)
    ensures Verdict(o, r, now).None? <==> forall s :: s in served ==> Good(o, s, now)
  {
    hide IsUnion, RecalledStream, UntrustedStream, RevokedStream, PeerKeys, Gathers;
    RecalledExactly(o, r, served);
    UntrustedExactly(o, r, served);
    PeerRevokedExactly(o, r, served, key);
    LapsedExactly(r, served, now);
    if Verdict(o, r, now).None? {
      assert forall s :: s in served ==> Good(o, s, now);
    } else {
      var s := Culprit(o, r, served, key, now);
    }
  }
}
