/**
  The stream preamble (src/protocol.rs): the request a dialer opens with, the response a host answers with,
  and what an unreadable head is answered with. Layouts follow PROTOCOL.md, version TB04.
*/
module Utf8 {
  import opened Octets

  predicate Tail(b: byte) { 0x80 <= b <= 0xBF }

  /** The length of the well-formed sequence `b` opens with (section 4 of RFC 3629), or 0 when it opens with none. */
  function Lead(b: seq<byte>): (n: nat)
    ensures n <= |b|
  {
    if |b| >= 1 && b[0] <= 0x7F then 1
    else if |b| >= 2 && 0xC2 <= b[0] <= 0xDF && Tail(b[1]) then 2
    else if |b| >= 3 && Tail(b[2])
            && ((b[0] == 0xE0 && 0xA0 <= b[1] <= 0xBF) || (0xE1 <= b[0] <= 0xEC && Tail(b[1]))
                || (b[0] == 0xED && 0x80 <= b[1] <= 0x9F) || (0xEE <= b[0] <= 0xEF && Tail(b[1]))) then 3
    else if |b| >= 4 && Tail(b[2]) && Tail(b[3])
            && ((b[0] == 0xF0 && 0x90 <= b[1] <= 0xBF) || (0xF1 <= b[0] <= 0xF3 && Tail(b[1]))
                || (b[0] == 0xF4 && 0x80 <= b[1] <= 0x8F)) then 4
    else 0
  }

  predicate Valid(b: seq<byte>)
    decreases |b|
  {
    b == [] || (Lead(b) > 0 && Valid(b[Lead(b)..]))
  }

  lemma {:induction false} AsciiIsValid(b: seq<byte>)
    requires forall i :: 0 <= i < |b| ==> b[i] <= 0x7F
    ensures Valid(b)
    decreases |b|
  {
    if b != [] {
      AsciiIsValid(b[1..]);
    }
  }

  /** A Unicode scalar value: a code point that is not a surrogate. */
  type Scalar = c: nat | c < 0xD800 || 0xE000 <= c <= 0x10FFFF witness 0

  /** How one scalar value is written (section 3 of RFC 3629). */
  function Encode(c: Scalar): (b: seq<byte>)
    ensures 1 <= |b| <= 4
  {
    if c < 0x80 then [c as byte]
    else if c < 0x800 then [(0xC0 + c / 0x40) as byte, (0x80 + c % 0x40) as byte]
    else if c < 0x1_0000 then [(0xE0 + c / 0x1000) as byte, (0x80 + c / 0x40 % 0x40) as byte, (0x80 + c % 0x40) as byte]
    else [(0xF0 + c / 0x4_0000) as byte, (0x80 + c / 0x1000 % 0x40) as byte, (0x80 + c / 0x40 % 0x40) as byte,
          (0x80 + c % 0x40) as byte]
  }

  function EncodeAll(s: seq<Scalar>): seq<byte> {
    if s == [] then [] else Encode(s[0]) + EncodeAll(s[1..])
  }

  /** The scalar value a well-formed sequence stands for. */
  function Decode(b: seq<byte>): Scalar
    requires Lead(b) > 0
  {
    match Lead(b)
    case 1 => b[0] as nat
    case 2 => (b[0] as nat - 0xC0) * 0x40 + (b[1] as nat - 0x80)
    case 3 => (b[0] as nat - 0xE0) * 0x1000 + (b[1] as nat - 0x80) * 0x40 + (b[2] as nat - 0x80)
    case _ => (b[0] as nat - 0xF0) * 0x4_0000 + (b[1] as nat - 0x80) * 0x1000 + (b[2] as nat - 0x80) * 0x40
              + (b[3] as nat - 0x80)
  }

  lemma OneSix(q: nat, r: nat)
    requires r < 0x40
    ensures (q * 0x40 + r) / 0x40 == q && (q * 0x40 + r) % 0x40 == r
  {}

  lemma TwiceBySix(c: nat)
    ensures c / 0x1000 == c / 0x40 / 0x40
    ensures c / 0x4_0000 == c / 0x40 / 0x40 / 0x40
  {}

  /** Six bits at a time. */
  lemma Sixes(w: nat, x: nat, y: nat, z: nat)
    requires x < 0x40 && y < 0x40 && z < 0x40
    ensures var c := w * 0x4_0000 + x * 0x1000 + y * 0x40 + z;
            c / 0x4_0000 == w && c / 0x1000 % 0x40 == x && c / 0x40 % 0x40 == y && c % 0x40 == z
    ensures w == 0 ==> (x * 0x1000 + y * 0x40 + z) / 0x1000 == x
    ensures w == 0 && x == 0 ==> (y * 0x40 + z) / 0x40 == y
  {
    OneSix(w * 0x1000 + x * 0x40 + y, z);
    OneSix(w * 0x40 + x, y);
    OneSix(w, x);
    TwiceBySix(w * 0x4_0000 + x * 0x1000 + y * 0x40 + z);
  }

  lemma LeadIsOneScalar(b: seq<byte>)
    requires Lead(b) > 0
    ensures Encode(Decode(b)) == b[..Lead(b)]
  {
    match Lead(b)
    case 1 =>
    case 2 => TwoOctets(b);
    case 3 => ThreeOctets(b);
    case _ => FourOctets(b);
  }

  lemma TwoOctets(b: seq<byte>)
    requires Lead(b) == 2
    ensures Encode(Decode(b)) == b[..2]
  {
    Sixes(0, 0, b[0] as nat - 0xC0, b[1] as nat - 0x80);
  }

  lemma ThreeOctets(b: seq<byte>)
    requires Lead(b) == 3
    ensures Encode(Decode(b)) == b[..3]
  {
    var x, y, z := b[0] as nat - 0xE0, b[1] as nat - 0x80, b[2] as nat - 0x80;
    Sixes(0, x, y, z);
    assert Decode(b) == x * 0x1000 + y * 0x40 + z >= 0x800;
  }

  lemma FourOctets(b: seq<byte>)
    requires Lead(b) == 4
    ensures Encode(Decode(b)) == b[..4]
  {
    var w, x, y, z := b[0] as nat - 0xF0, b[1] as nat - 0x80, b[2] as nat - 0x80, b[3] as nat - 0x80;
    Sixes(w, x, y, z);
    assert Decode(b) == w * 0x4_0000 + x * 0x1000 + y * 0x40 + z >= 0x1_0000;
  }

  lemma WideScalarLeads(c: Scalar, tail: seq<byte>)
    requires c >= 0x1_0000
    ensures Lead(Encode(c) + tail) == 4
  {
    var b := Encode(c) + tail;
    assert b[0] as nat == 0xF0 + c / 0x4_0000 <= 0xF4;
    assert b[0] == 0xF0 ==> 0x90 <= b[1] <= 0xBF;
    assert b[0] == 0xF4 ==> 0x80 <= b[1] <= 0x8F;
  }

  lemma OneScalarLeads(c: Scalar, tail: seq<byte>)
    ensures Lead(Encode(c) + tail) == |Encode(c)|
  {
    if c >= 0x1_0000 {
      WideScalarLeads(c, tail);
    } else if c >= 0x800 {
      var b := Encode(c) + tail;
      assert b[0] as nat == 0xE0 + c / 0x1000;
      assert b[0] == 0xED ==> b[1] <= 0x9F;
    }
  }

  lemma {:induction false} ValidDecodes(b: seq<byte>) returns (s: seq<Scalar>)
    requires Valid(b)
    ensures EncodeAll(s) == b
    decreases |b|
  {
    s := [];
    if b != [] {
      LeadIsOneScalar(b);
      var rest := ValidDecodes(b[Lead(b)..]);
      s := [Decode(b)] + rest;
      assert s[1..] == rest && b == b[..Lead(b)] + b[Lead(b)..];
    }
  }

  lemma {:induction false} EncodedIsValid(s: seq<Scalar>)
    ensures Valid(EncodeAll(s))
  {
    if s != [] {
      OneScalarLeads(s[0], EncodeAll(s[1..]));
      assert EncodeAll(s)[|Encode(s[0])|..] == EncodeAll(s[1..]);
      EncodedIsValid(s[1..]);
    }
  }

  /** The grammar takes exactly the encodings of sequences of scalar values. */
  lemma ValidExactly(b: seq<byte>)
    ensures Valid(b) <==> exists s :: EncodeAll(s) == b
  {
    if Valid(b) {
      var s := ValidDecodes(b);
    }
    if s :| EncodeAll(s) == b {
      EncodedIsValid(s);
    }
  }
}

module Streams {
  import opened Wrappers
  import opened Octets

  datatype IoError = UnexpectedEof | Unreadable | TooLong | NoCode

  /** The near end of a stream being read: everything the peer has sent, and how much of it was taken. */
  class Reader {
    const sent: seq<byte>
    var at: nat

    ghost predicate Valid()
      reads this
    {
      at <= |sent|
    }

    ghost function Rest(): seq<byte>
      reads this
      requires Valid()
    {
      sent[at..]
    }

    constructor (sent: seq<byte>)
      ensures Valid() && Rest() == sent
    {
      this.sent := sent;
      at := 0;
    }

    /** Take exactly `n` octets, or find the stream ended first. */
    method ReadExact(n: nat) returns (r: Result<seq<byte>, IoError>)
      requires Valid()
      modifies this`at
      ensures Valid()
      ensures r.Success? <==> n <= |old(Rest())|
      ensures r.Success? ==> r.value == old(Rest())[..n] && Rest() == old(Rest())[n..]
      ensures r.Failure? ==> r.error == UnexpectedEof && Rest() == []
    {
      if |sent| - at < n {
        at := |sent|;
        return Failure(UnexpectedEof);
      }
      r := Success(sent[at..at + n]);
      at := at + n;
    }
  }

  class Writer {
    var written: seq<byte>

    method WriteAll(b: seq<byte>)
      modifies this
      ensures written == old(written) + b
    {
      written := written + b;
    }
  }
}

module Protocol {
  import opened Wrappers
  import opened Octets
  import opened Streams
  import Utf8

  const IDENTITY: seq<byte> := [0x54, 0x42]
  const VERSION: seq<byte> := [0x30, 0x34]
  const MAX_STR: nat := 0xFFFF
  const MAX_DETAIL: nat := 1024
  const MAX_REQUEST: nat := 196617
  const MAX_RESPONSE: nat := 1028

  /** A string, as the octets it is written in. */
  type Text = b: seq<byte> | Utf8.Valid(b) witness []

  type Detail = b: seq<byte> | Utf8.Valid(b) && |b| <= MAX_DETAIL witness []

  predicate IsCapital(b: byte) { 0x41 <= b <= 0x5A }

  /** A run of octets from `lo` to `hi`, and not the empty one. */
  predicate Within(bytes: seq<byte>, lo: byte, hi: byte) {
    bytes != [] && forall i :: 0 <= i < |bytes| ==> lo <= bytes[i] <= hi
  }

  method AllBetween(bytes: seq<byte>, lo: byte, hi: byte) returns (all: bool)
    ensures all <==> Within(bytes, lo, hi)
  {
    var at := 0;
    while at < |bytes|
      invariant 0 <= at <= |bytes|
      invariant forall i :: 0 <= i < at ==> lo <= bytes[i] <= hi
    {
      if bytes[at] < lo || bytes[at] > hi {
        return false;
      }
      at := at + 1;
    }
    return bytes != [];
  }

  datatype Request = Request(service: Text, capability: Option<Text>, membership: Option<Text>)

  /** The two octets of a request's version. */
  type WireVersion = b: seq<byte> | |b| == 2 witness [0, 0]

  datatype ReadError = Foreign | Version(peer: WireVersion) | Io(error: IoError)

  datatype Refusal = NotAdmitted | BadRequest(detail: Detail) | Unavailable(detail: Detail) | Newer(class_: nat)

  datatype Response = Ok | Refused(refusal: Refusal)

  // ----- what the octets are ---------------------------------------------------------------------------

  function U16(n: nat): (b: seq<byte>)
    requires n <= MAX_STR
    ensures |b| == 2
  {
    [(n / 0x100) as byte, (n % 0x100) as byte]
  }

  function FromU16(b: seq<byte>): (n: nat)
    requires |b| == 2
    ensures n <= MAX_STR
  {
    b[0] as nat * 0x100 + b[1] as nat
  }

  lemma U16RoundTrips(b: seq<byte>, n: nat)
    requires |b| == 2 && n <= MAX_STR
    ensures U16(FromU16(b)) == b && FromU16(U16(n)) == n
  {}

  function Str(s: Text): seq<byte>
    requires |s| <= MAX_STR
  {
    U16(|s|) + s
  }

  predicate OptFits(s: Option<Text>) { s.None? || |s.value| <= MAX_STR }

  function Opt(s: Option<Text>): seq<byte>
    requires OptFits(s)
  {
    match s
    case None => [0]
    case Some(s) => [1] + Str(s)
  }

  predicate Fits(q: Request) { |q.service| <= MAX_STR && OptFits(q.capability) && OptFits(q.membership) }

  function Fields(q: Request): seq<byte>
    requires Fits(q)
  {
    Str(q.service) + (Opt(q.capability) + Opt(q.membership))
  }

  function Frame(q: Request): seq<byte>
    requires Fits(q)
  {
    IDENTITY + (VERSION + Fields(q))
  }

  function TornOpts(a: Option<Text>, b: Option<Text>): seq<byte>
    requires !(OptFits(a) && OptFits(b))
  {
    if !OptFits(a) then [1] else Opt(a) + [1]
  }

  /** What of the fields of a request that does not fit is on the stream by the time its write fails. */
  function TornFields(q: Request): seq<byte>
    requires !Fits(q)
  {
    if |q.service| > MAX_STR then [] else Str(q.service) + TornOpts(q.capability, q.membership)
  }

  function Torn(q: Request): seq<byte>
    requires !Fits(q)
  {
    IDENTITY + (VERSION + TornFields(q))
  }

  function Code(r: Refusal): Option<byte> {
    match r
    case NotAdmitted => Some(0)
    case BadRequest(_) => Some(1)
    case Unavailable(_) => Some(2)
    case Newer(_) => None
  }

  function Answer(r: Response): Option<seq<byte>> {
    match r
    case Ok => Some([0])
    case Refused(NotAdmitted) => Some([1, 0])
    case Refused(BadRequest(detail)) => Some([1, 1] + Str(detail))
    case Refused(Unavailable(detail)) => Some([1, 2] + Str(detail))
    case Refused(Newer(_)) => None
  }

  // ----- how the octets are read -----------------------------------------------------------------------

  /** A value or an error, and either way what the reader has left unread. */
  datatype Parsed<+T, +E> = Done(value: T, rest: seq<byte>) | Bad(error: E, rest: seq<byte>)

  function ParseStr(b: seq<byte>): Parsed<Text, IoError> {
    if |b| < 2 then Bad(UnexpectedEof, [])
    else
      var n := FromU16(b[..2]);
      if |b| - 2 < n then Bad(UnexpectedEof, [])
      else if !Utf8.Valid(b[2..][..n]) then Bad(Unreadable, b[2..][n..])
      else Done(b[2..][..n], b[2..][n..])
  }

  function ParseOpt(b: seq<byte>): Parsed<Option<Text>, IoError> {
    if b == [] then Bad(UnexpectedEof, [])
    else if b[0] == 0 then Done(None, b[1..])
    else if b[0] == 1 then
      match ParseStr(b[1..])
      case Done(s, rest) => Done(Some(s), rest)
      case Bad(e, left) => Bad(e, left)
    else Bad(Unreadable, b[1..])
  }

  /** What follows the magic. */
  function ParseFields(b: seq<byte>): Parsed<Request, IoError> {
    match ParseStr(b)
    case Bad(e, left) => Bad(e, left)
    case Done(service, b) =>
      match ParseOpt(b)
      case Bad(e, left) => Bad(e, left)
      case Done(capability, b) =>
        match ParseOpt(b)
        case Bad(e, left) => Bad(e, left)
        case Done(membership, b) => Done(Request(service, capability, membership), b)
  }

  function ParseRequest(b: seq<byte>): Parsed<Request, ReadError> {
    if |b| < 2 then Bad(Io(UnexpectedEof), [])
    else if b[..2] != IDENTITY then Bad(Foreign, b[2..])
    else if |b[2..]| < 2 then Bad(Io(UnexpectedEof), [])
    else if IsCapital(b[2..][0]) then Bad(Foreign, b[2..][2..])
    else if b[2..][..2] != VERSION then Bad(Version(b[2..][..2]), b[2..][2..])
    else match ParseFields(b[2..][2..])
      case Done(q, rest) => Done(q, rest)
      case Bad(e, left) => Bad(Io(e), left)
  }

  function ParseDetail(b: seq<byte>): Parsed<Detail, IoError> {
    if |b| < 2 then Bad(UnexpectedEof, [])
    else
      var n := FromU16(b[..2]);
      if n > MAX_DETAIL then Bad(TooLong, b[2..])
      else if |b| - 2 < n then Bad(UnexpectedEof, [])
      else if !Utf8.Valid(b[2..][..n]) then Bad(Unreadable, b[2..][n..])
      else Done(b[2..][..n], b[2..][n..])
  }

  function ParseResponse(b: seq<byte>): Parsed<Response, IoError> {
    if b == [] then Bad(UnexpectedEof, [])
    else if b[0] == 0 then Done(Ok, b[1..])
    else if b[0] != 1 then Bad(Unreadable, b[1..])
    else if |b| < 2 then Bad(UnexpectedEof, [])
    else if b[1] == 0 then Done(Refused(NotAdmitted), b[2..])
    else if b[1] == 1 || b[1] == 2 then
      match ParseDetail(b[2..])
      case Bad(e, left) => Bad(e, left)
      case Done(detail, rest) => Done(Refused(if b[1] == 1 then BadRequest(detail) else Unavailable(detail)), rest)
    else Bad(Unreadable, b[2..])
  }

  // ----- what an unreadable head is answered with ------------------------------------------------------

  /**
    The octets of an ASCII text; a character outside ASCII, of which the texts here have none, is a question mark.
  */
  function Ascii(s: string): (b: Text)
    ensures |b| == |s|
    ensures forall i :: 0 <= i < |s| && s[i] < '\U{80}' ==> b[i] as int == s[i] as int
  {
    var b := seq(|s|, i requires 0 <= i < |s| => if s[i] < '\U{80}' then s[i] as int as byte else 0x3F);
    Utf8.AsciiIsValid(b);
    b
  }

  const HEX := "0123456789abcdef"

  /** An octet as a terminal may safely show it. */
  function Escaped(b: byte): (s: string)
    ensures 1 <= |s| <= 4
    ensures forall i :: 0 <= i < |s| ==> ' ' <= s[i] <= '~'
  {
    if b == 0x09 then "\\t"
    else if b == 0x0A then "\\n"
    else if b == 0x0D then "\\r"
    else if b == 0x22 then "\\\""
    else if b == 0x27 then "\\'"
    else if b == 0x5C then "\\\\"
    else if 0x20 <= b <= 0x7E then [b as int as char]
    else ['\\', 'x', HEX[b as int / 16], HEX[b as int % 16]]
  }

  /** A version as the whole four-octet tag it stands in. */
  function Tag(version: seq<byte>): (s: string)
    requires |version| == 2
    ensures 4 <= |s| <= 10
  {
    "TB" + Escaped(version[0]) + Escaped(version[1])
  }

  /** Fixed text and the two versions, and nothing of the host's. */
  function SkewText(peer: seq<byte>): string
    requires |peer| == 2
  {
    "tightbeam wire version mismatch: the request is " + Tag(peer) + ", this host speaks " + Tag(VERSION)
    + "; run the same release at both ends"
  }

  function SkewDetail(peer: seq<byte>): Detail
    requires |peer| == 2
  {
    Ascii(SkewText(peer))
  }

  /** The one unreadable head that is answered, and with what. */
  function RefusalFor(e: ReadError): Option<Refusal> {
    match e
    case Version(peer) => Some(BadRequest(SkewDetail(peer)))
    case Foreign => None
    case Io(_) => None
  }

  predicate Answered(e: ReadError) { RefusalFor(e).Some? }

  // ----- the codec, over streams -----------------------------------------------------------------------

  method WriteStr(w: Writer, s: Text) returns (r: Result<(), IoError>)
    modifies w
    ensures |s| <= MAX_STR ==> r.Success? && w.written == old(w.written) + Str(s)
    ensures |s| > MAX_STR ==> r == Failure(TooLong) && w.written == old(w.written)
  {
    if |s| > MAX_STR {
      return Failure(TooLong);
    }
    w.WriteAll(U16(|s|));
    w.WriteAll(s);
    r := Success(());
  }

  method WriteOpt(w: Writer, s: Option<Text>) returns (r: Result<(), IoError>)
    modifies w
    ensures OptFits(s) ==> r.Success? && w.written == old(w.written) + Opt(s)
    ensures !OptFits(s) ==> r == Failure(TooLong) && w.written == old(w.written) + [1]
  {
    if s.Some? {
      w.WriteAll([1]);
      r := WriteStr(w, s.value);
    } else {
      w.WriteAll([0]);
      r := Success(());
    }
  }

  method WriteOpts(w: Writer, a: Option<Text>, b: Option<Text>) returns (r: Result<(), IoError>)
    modifies w
    ensures OptFits(a) && OptFits(b) ==> r.Success? && w.written == old(w.written) + (Opt(a) + Opt(b))
    ensures !(OptFits(a) && OptFits(b)) ==> r == Failure(TooLong) && w.written == old(w.written) + TornOpts(a, b)
  {
    r := WriteOpt(w, a);
    if r.Success? {
      r := WriteOpt(w, b);
      Joined(old(w.written), Opt(a), if OptFits(b) then Opt(b) else [1]);
    }
  }

  lemma Joined(a: seq<byte>, b: seq<byte>, c: seq<byte>)
    ensures (a + b) + c == a + (b + c)
  {}

  method WriteFields(w: Writer, q: Request) returns (r: Result<(), IoError>)
    modifies w
    ensures Fits(q) ==> r.Success? && w.written == old(w.written) + Fields(q)
    ensures !Fits(q) ==> r == Failure(TooLong) && w.written == old(w.written) + TornFields(q)
  {
    r := WriteStr(w, q.service);
    if r.Success? {
      r := WriteOpts(w, q.capability, q.membership);
      Joined(old(w.written), Str(q.service), if OptFits(q.capability) && OptFits(q.membership)
                                             then Opt(q.capability) + Opt(q.membership)
                                             else TornOpts(q.capability, q.membership));
    }
  }

  /** The magic is already on the stream when a string turns out too long for its field. */
  method WriteRequest(w: Writer, q: Request) returns (r: Result<(), IoError>)
    modifies w
    ensures Fits(q) ==> r.Success? && w.written == old(w.written) + Frame(q)
    ensures !Fits(q) ==> r == Failure(TooLong) && w.written == old(w.written) + Torn(q)
  {
    w.WriteAll(IDENTITY);
    w.WriteAll(VERSION);
    r := WriteFields(w, q);
  }

  /** How sure a transport is of its peer. */
  datatype PeerProof = Proven | InProcess | Announced

  predicate PeerProven(proof: PeerProof) { proof.Proven? || proof.InProcess? }

  predicate PresentsCredential(q: Request) { q.capability.Some? || q.membership.Some? }

  datatype WriteError = Insecure | Unwritten(error: IoError)

  /** Never a credential octet, and then no octet at all, toward a peer the transport does not prove. */
  method WriteChecked(w: Writer, q: Request, proof: PeerProof) returns (r: Result<(), WriteError>)
    modifies w
    ensures r == Failure(Insecure) <==> (q.capability.Some? || q.membership.Some?) && proof.Announced?
    ensures r == Failure(Insecure) ==> w.written == old(w.written)
    ensures r != Failure(Insecure) ==>
      w.written == old(w.written) + if Fits(q) then Frame(q) else Torn(q)
    ensures r.Success? <==> r != Failure(Insecure) && Fits(q)
  {
    if PresentsCredential(q) && !PeerProven(proof) {
      return Failure(Insecure);
    }
    var written := WriteRequest(w, q);
    r := if written.Success? then Success(()) else Failure(Unwritten(written.error));
  }

  method ReadStr(b: Reader) returns (r: Result<Text, IoError>)
    requires b.Valid()
    modifies b`at
    ensures b.Valid()
    ensures match ParseStr(old(b.Rest()))
            case Done(s, rest) => r == Success(s) && b.Rest() == rest
            case Bad(e, left) => r == Failure(e) && b.Rest() == left
  {
    var n := b.ReadExact(2);
    if n.Failure? {
      return Failure(n.error);
    }
    var s := b.ReadExact(FromU16(n.value));
    if s.Failure? {
      return Failure(s.error);
    }
    r := if Utf8.Valid(s.value) then Success(s.value) else Failure(Unreadable);
  }

  method ReadOpt(b: Reader) returns (r: Result<Option<Text>, IoError>)
    requires b.Valid()
    modifies b`at
    ensures b.Valid()
    ensures match ParseOpt(old(b.Rest()))
            case Done(s, rest) => r == Success(s) && b.Rest() == rest
            case Bad(e, left) => r == Failure(e) && b.Rest() == left
  {
    var present := b.ReadExact(1);
    if present.Failure? {
      return Failure(present.error);
    }
    if present.value[0] == 0 {
      r := Success(None);
    } else if present.value[0] == 1 {
      var s := ReadStr(b);
      r := if s.Success? then Success(Some(s.value)) else Failure(s.error);
    } else {
      r := Failure(Unreadable);
    }
  }

  method ReadFields(b: Reader) returns (r: Result<Request, IoError>)
    requires b.Valid()
    modifies b`at
    ensures b.Valid()
    ensures match ParseFields(old(b.Rest()))
            case Done(q, rest) => r == Success(q) && b.Rest() == rest
            case Bad(e, left) => r == Failure(e) && b.Rest() == left
  {
    var service := ReadStr(b);
    if service.Failure? {
      return Failure(service.error);
    }
    var capability := ReadOpt(b);
    if capability.Failure? {
      return Failure(capability.error);
    }
    var membership := ReadOpt(b);
    if membership.Failure? {
      return Failure(membership.error);
    }
    r := Success(Request(service.value, capability.value, membership.value));
  }

  /** The identity is read and judged before the version, and the version before anything else. */
  method ReadRequest(b: Reader) returns (r: Result<Request, ReadError>)
    requires b.Valid()
    modifies b`at
    ensures b.Valid()
    ensures match ParseRequest(old(b.Rest()))
            case Done(q, rest) => r == Success(q) && b.Rest() == rest
            case Bad(e, left) => r == Failure(e) && b.Rest() == left
  {
    var identity := b.ReadExact(2);
    if identity.Failure? {
      return Failure(Io(identity.error));
    }
    if identity.value != IDENTITY {
      return Failure(Foreign);
    }
    var version := b.ReadExact(2);
    if version.Failure? {
      return Failure(Io(version.error));
    }
    if IsCapital(version.value[0]) {
      return Failure(Foreign);
    }
    if version.value != VERSION {
      return Failure(Version(version.value));
    }
    var q := ReadFields(b);
    r := if q.Success? then Success(q.value) else Failure(Io(q.error));
  }

  /** A refusal with no code is settled before an octet moves. */
  method WriteResponse(w: Writer, response: Response) returns (r: Result<(), IoError>)
    modifies w
    ensures match Answer(response)
            case Some(octets) => r.Success? && w.written == old(w.written) + octets
            case None => r == Failure(NoCode) && w.written == old(w.written)
  {
    if response.Ok? {
      w.WriteAll([0]);
      return Success(());
    }
    var code := Code(response.refusal);
    if code.None? {
      return Failure(NoCode);
    }
    w.WriteAll([1, code.value]);
    if response.refusal.NotAdmitted? {
      return Success(());
    }
    r := WriteStr(w, response.refusal.detail);
  }

  method ReadDetail(b: Reader) returns (r: Result<Detail, IoError>)
    requires b.Valid()
    modifies b`at
    ensures b.Valid()
    ensures match ParseDetail(old(b.Rest()))
            case Done(s, rest) => r == Success(s) && b.Rest() == rest
            case Bad(e, left) => r == Failure(e) && b.Rest() == left
  {
    var n := b.ReadExact(2);
    if n.Failure? {
      return Failure(n.error);
    }
    if FromU16(n.value) > MAX_DETAIL {
      return Failure(TooLong);
    }
    var s := b.ReadExact(FromU16(n.value));
    if s.Failure? {
      return Failure(s.error);
    }
    r := if Utf8.Valid(s.value) then Success(s.value) else Failure(Unreadable);
  }

  method ReadResponse(b: Reader) returns (r: Result<Response, IoError>)
    requires b.Valid()
    modifies b`at
    ensures b.Valid()
    ensures match ParseResponse(old(b.Rest()))
            case Done(response, rest) => r == Success(response) && b.Rest() == rest
            case Bad(e, left) => r == Failure(e) && b.Rest() == left
  {
    var tag := b.ReadExact(1);
    if tag.Failure? {
      return Failure(tag.error);
    }
    if tag.value[0] == 0 {
      return Success(Ok);
    }
    if tag.value[0] != 1 {
      return Failure(Unreadable);
    }
    var code := b.ReadExact(1);
    if code.Failure? {
      return Failure(code.error);
    }
    if code.value[0] == 0 {
      return Success(Refused(NotAdmitted));
    }
    if code.value[0] != 1 && code.value[0] != 2 {
      return Failure(Unreadable);
    }
    var detail := ReadDetail(b);
    if detail.Failure? {
      return Failure(detail.error);
    }
    r := Success(Refused(if code.value[0] == 1 then BadRequest(detail.value) else Unavailable(detail.value)));
  }

  // ----- what the codec promises -----------------------------------------------------------------------

  lemma StrRoundTrips(s: Text, tail: seq<byte>)
    requires |s| <= MAX_STR
    ensures ParseStr(Str(s) + tail) == Done(s, tail)
  {
    var b := Str(s) + tail;
    U16RoundTrips(b[..2], |s|);
    assert b[..2] == U16(|s|) && b[2..] == s + tail;
    assert b[2..][..|s|] == s && b[2..][|s|..] == tail;
  }

  lemma StrIsCanonical(b: seq<byte>)
    requires ParseStr(b).Done?
    ensures var p := ParseStr(b); |p.value| <= MAX_STR && b == Str(p.value) + p.rest
  {
    LengthFirst(b, FromU16(b[..2]));
  }

  lemma OptRoundTrips(s: Option<Text>, tail: seq<byte>)
    requires OptFits(s)
    ensures ParseOpt(Opt(s) + tail) == Done(s, tail)
  {
    if s.Some? {
      assert (Opt(s) + tail)[1..] == Str(s.value) + tail;
      StrRoundTrips(s.value, tail);
    }
  }

  lemma OptIsCanonical(b: seq<byte>)
    requires ParseOpt(b).Done?
    ensures var p := ParseOpt(b); OptFits(p.value) && b == Opt(p.value) + p.rest
  {
    if b[0] == 1 {
      StrIsCanonical(b[1..]);
    }
  }

  lemma FieldsRoundTrip(q: Request, tail: seq<byte>)
    requires Fits(q)
    ensures ParseFields(Fields(q) + tail) == Done(q, tail)
  {
    var afterService := Opt(q.capability) + (Opt(q.membership) + tail);
    assert Fields(q) + tail == Str(q.service) + afterService;
    StrRoundTrips(q.service, afterService);
    OptRoundTrips(q.capability, Opt(q.membership) + tail);
    OptRoundTrips(q.membership, tail);
  }

  lemma FieldsAreCanonical(b: seq<byte>)
    requires ParseFields(b).Done?
    ensures var p := ParseFields(b); Fits(p.value) && b == Fields(p.value) + p.rest
  {
    StrIsCanonical(b);
    var b1 := ParseStr(b).rest;
    OptIsCanonical(b1);
    OptIsCanonical(ParseOpt(b1).rest);
  }

  /** Whatever follows it, a written request reads back as itself and takes nothing of what follows. */
  lemma RequestRoundTrips(q: Request, tail: seq<byte>)
    requires Fits(q)
    ensures ParseRequest(Frame(q) + tail) == Done(q, tail)
  {
    var b := Frame(q) + tail;
    assert b[..2] == IDENTITY;
    assert b[2..] == VERSION + (Fields(q) + tail);
    assert b[2..][..2] == VERSION;
    assert b[2..][2..] == Fields(q) + tail;
    FieldsRoundTrip(q, tail);
  }

  /** There is one way to write a request: whatever reads as one is, octet for octet, what its writer emits. */
  lemma RequestIsCanonical(b: seq<byte>)
    requires ParseRequest(b).Done?
    ensures var p := ParseRequest(b); Fits(p.value) && b == Frame(p.value) + p.rest
  {
    var afterIdentity := b[2..];
    assert b == IDENTITY + afterIdentity;
    assert afterIdentity == VERSION + afterIdentity[2..];
    FieldsAreCanonical(afterIdentity[2..]);
    var p := ParseFields(afterIdentity[2..]);
    Joined(VERSION, Fields(p.value), p.rest);
    Joined(IDENTITY, VERSION + Fields(p.value), p.rest);
  }

  /** No request is the beginning of another, so a reader always knows where one ends. */
  lemma RequestsArePrefixFree(a: Request, b: Request, x: seq<byte>, y: seq<byte>)
    requires Fits(a) && Fits(b) && Frame(a) + x == Frame(b) + y
    ensures a == b && x == y
  {
    RequestRoundTrips(a, x);
    RequestRoundTrips(b, y);
  }

  /** A write that fails leaves nothing a host could take for a request. */
  lemma ATornRequestNeverReads(q: Request)
    requires !Fits(q)
    ensures ParseRequest(Torn(q)) == Bad(Io(UnexpectedEof), [])
  {
    var b := Torn(q);
    assert b[..2] == IDENTITY;
    assert b[2..] == VERSION + TornFields(q);
    assert b[2..][..2] == VERSION;
    assert b[2..][2..] == TornFields(q);
    if |q.service| <= MAX_STR {
      if !OptFits(q.capability) {
        StrRoundTrips(q.service, [1]);
      } else {
        StrRoundTrips(q.service, Opt(q.capability) + [1]);
        OptRoundTrips(q.capability, [1]);
      }
      assert [1 as byte][1..] == [];
    }
  }

  /** The magic splits by rule and not by a remembered offset: it is capitals, then digits, four octets in all. */
  lemma TheMagicSplitsByRule()
    ensures Within(IDENTITY, 0x41, 0x5A) && Within(VERSION, 0x30, 0x39) && |IDENTITY + VERSION| == 4
    ensures CapitalRun(IDENTITY + VERSION) == IDENTITY
  {
    RunOfTwo(IDENTITY + VERSION);
  }

  /** The maximal run of capitals `b` opens with. */
  function CapitalRun(b: seq<byte>): seq<byte>
    decreases |b|
  {
    if b == [] || !IsCapital(b[0]) then [] else [b[0]] + CapitalRun(b[1..])
  }

  lemma {:induction false} RunOfTwo(b: seq<byte>)
    requires |b| >= 3
    ensures CapitalRun(b) == IDENTITY <==> b[..2] == IDENTITY && !IsCapital(b[2])
  {
    assert b[1..][1..] == b[2..];
    if IsCapital(b[0]) && IsCapital(b[1]) {
      assert CapitalRun(b) == [b[0]] + ([b[1]] + CapitalRun(b[2..]));
      if IsCapital(b[2]) {
        assert |CapitalRun(b)| >= 3;
      } else {
        assert CapitalRun(b) == b[..2];
      }
    } else {
      assert |CapitalRun(b)| <= 1;
    }
  }

  /**
    A whole head is judged by its maximal capital run alone: silence unless that run is ours, and then its
    version.
  */
  lemma TheHeadIsJudgedByItsRun(b: seq<byte>)
    requires |b| >= 4
    ensures var p := ParseRequest(b);
            && (p.Bad? && Answered(p.error) <==> CapitalRun(b) == IDENTITY && b[2..4] != VERSION)
            && (p.Bad? && p.error.Foreign? <==> CapitalRun(b) != IDENTITY)
            && (p.Bad? && Answered(p.error) ==> p.error.peer == b[2..4])
  {
    hide ParseFields;
    RunOfTwo(b);
    assert b[2..][..2] == b[2..4];
    assert b[2..][0] == b[2];
  }

  /** A head that never became whole is never answered. */
  lemma AShortHeadIsNotAnswered(b: seq<byte>)
    requires |b| < 4
    ensures var p := ParseRequest(b); p.Bad? && !Answered(p.error)
  {}

  lemma DetailRoundTrips(d: Detail, tail: seq<byte>)
    ensures ParseDetail(Str(d) + tail) == Done(d, tail)
  {
    var b := Str(d) + tail;
    U16RoundTrips(b[..2], |d|);
    assert b[..2] == U16(|d|) && b[2..] == d + tail;
    assert b[2..][..|d|] == d && b[2..][|d|..] == tail;
  }

  /** Every response with a code reads back as itself, whatever the pipe behind it carries. */
  lemma ResponseRoundTrips(r: Response, tail: seq<byte>)
    requires Answer(r).Some?
    ensures ParseResponse(Answer(r).value + tail) == Done(r, tail)
  {
    var b := Answer(r).value + tail;
    if r.Ok? {
      assert b[1..] == tail;
    } else if r.refusal.NotAdmitted? {
      assert b[2..] == tail;
    } else {
      assert b[2..] == Str(r.refusal.detail) + tail;
      DetailRoundTrips(r.refusal.detail, tail);
    }
  }

  lemma DetailIsCanonical(b: seq<byte>)
    requires ParseDetail(b).Done?
    ensures b == Str(ParseDetail(b).value) + ParseDetail(b).rest
  {
    LengthFirst(b, FromU16(b[..2]));
  }

  /** A two-octet length, then as many octets, then the rest. */
  lemma LengthFirst(b: seq<byte>, n: nat)
    requires |b| >= 2 && FromU16(b[..2]) == n <= |b| - 2
    ensures b == U16(n) + b[2..][..n] + b[2..][n..]
  {
    U16RoundTrips(b[..2], 0);
    assert b[2..] == b[2..][..n] + b[2..][n..];
    Joined(U16(n), b[2..][..n], b[2..][n..]);
  }

  lemma ResponseIsCanonical(b: seq<byte>)
    requires ParseResponse(b).Done?
    ensures var p := ParseResponse(b); Answer(p.value).Some? && b == Answer(p.value).value + p.rest
  {
    if b[0] == 0 {
      assert b == [0] + b[1..];
    } else {
      assert b == b[..2] + b[2..];
      assert b[..2] == [1, b[1]];
      if b[1] != 0 {
        DetailIsCanonical(b[2..]);
        var p := ParseDetail(b[2..]);
        Joined([1, b[1]], Str(p.value), p.rest);
      }
    }
  }

  /** A write that fails has sent the frame so far, down to the octet that announces the field that is too long. */
  lemma ATornWriteStopsAtTheLongField(q: Request)
    requires !Fits(q)
    ensures if |q.service| > MAX_STR then Torn(q) + [0, 0, 0, 0] == Frame(Request([], None, None))
            else if !OptFits(q.capability) then Torn(q) + [0, 0, 0] == Frame(Request(q.service, Some([]), None))
            else Torn(q) + [0, 0] == Frame(Request(q.service, q.capability, Some([])))
  {
    assert Str([]) == [0, 0];
    if |q.service| > MAX_STR {
      assert Fields(Request([], None, None)) == [0, 0, 0, 0];
    } else if !OptFits(q.capability) {
      assert Fields(Request(q.service, Some([]), None)) == TornFields(q) + [0, 0, 0];
    } else {
      assert Fields(Request(q.service, q.capability, Some([]))) == TornFields(q) + [0, 0];
    }
  }

  lemma LettersFit(n: nat)
    ensures Utf8.Valid(seq(n, _ => 0x61))
  {
    Utf8.AsciiIsValid(seq(n, _ => 0x61));
  }

  /** The widths PROTOCOL.md states are never exceeded, and each is reached. */
  lemma FramesAreBounded()
    ensures forall q :: Fits(q) ==> |Frame(q)| <= MAX_REQUEST
    ensures exists q :: Fits(q) && |Frame(q)| == MAX_REQUEST
    ensures forall r :: Answer(r).Some? ==> |Answer(r).value| <= MAX_RESPONSE
    ensures exists r :: Answer(r).Some? && |Answer(r).value| == MAX_RESPONSE
  {
    LettersFit(MAX_STR);
    LettersFit(MAX_DETAIL);
    var widest: Text := seq(MAX_STR, _ => 0x61);
    var q := Request(widest, Some(widest), Some(widest));
    assert Fits(q) && |Frame(q)| == MAX_REQUEST;
    var detail: Detail := seq(MAX_DETAIL, _ => 0x61);
    var r := Refused(Unavailable(detail));
    assert Answer(r).Some? && |Answer(r).value| == MAX_RESPONSE;
  }

  /** A request's octets, as PROTOCOL.md publishes them: `ssh`, and no credential. */
  lemma ThePublishedRequest()
    ensures var q := Request(Ascii("ssh"), None, None);
            Fits(q) && Frame(q) == [0x54, 0x42, 0x30, 0x34, 0x00, 0x03, 0x73, 0x73, 0x68, 0x00, 0x00]
  {
    assert Ascii("ssh") == [0x73, 0x73, 0x68];
    assert Str(Ascii("ssh")) == [0x00, 0x03, 0x73, 0x73, 0x68];
  }

  /** And with both credential slots filled, by `ed01abc.def` and then `ed01ghi.jkl`. */
  lemma ThePublishedCredentials(capability: Text, membership: Text)
    requires capability == [0x65, 0x64, 0x30, 0x31, 0x61, 0x62, 0x63, 0x2e, 0x64, 0x65, 0x66]
    requires membership == [0x65, 0x64, 0x30, 0x31, 0x67, 0x68, 0x69, 0x2e, 0x6a, 0x6b, 0x6c]
    ensures var q := Request(Ascii("ssh"), Some(capability), Some(membership));
            && Fits(q)
            && Frame(q) == [0x54, 0x42, 0x30, 0x34] + ([0x00, 0x03, 0x73, 0x73, 0x68]
                           + (([0x01, 0x00, 0x0b] + capability) + ([0x01, 0x00, 0x0b] + membership)))
  {
    var q := Request(Ascii("ssh"), Some(capability), Some(membership));
    AnElevenOctetToken(capability);
    AnElevenOctetToken(membership);
    assert Str(q.service) == [0x00, 0x03, 0x73, 0x73, 0x68] by { assert q.service == [0x73, 0x73, 0x68]; }
    Joined(IDENTITY, VERSION, Fields(q));
    assert IDENTITY + VERSION == [0x54, 0x42, 0x30, 0x34];
  }

  lemma AnElevenOctetToken(token: Text)
    requires |token| == 11
    ensures Opt(Some(token)) == [0x01, 0x00, 0x0b] + token
  {
  }

  /** The answers it publishes. */
  lemma ThePublishedAnswers(detail: Detail)
    requires |detail| == 32
    ensures Answer(Ok) == Some([0x00]) && Answer(Refused(NotAdmitted)) == Some([0x01, 0x00])
    ensures Answer(Refused(BadRequest(detail))) == Some([0x01, 0x01, 0x00, 0x20] + detail)
    ensures Answer(Refused(Unavailable(detail))) == Some([0x01, 0x02, 0x00, 0x20] + detail)
  {
    assert Str(detail) == [0x00, 0x20] + detail;
    assert [0x01, 0x01] + Str(detail) == [0x01, 0x01, 0x00, 0x20] + detail;
    assert [0x01, 0x02] + Str(detail) == [0x01, 0x02, 0x00, 0x20] + detail;
  }

  // ----- when a reader knows ---------------------------------------------------------------------------

  predicate Early<T>(p: Parsed<T, IoError>) { p.Bad? && p.error == UnexpectedEof }

  lemma AStrIsFinal(b: seq<byte>, tail: seq<byte>)
    requires !Early(ParseStr(b))
    ensures ParseStr(b + tail) == (match ParseStr(b)
                                   case Done(s, rest) => Done(s, rest + tail)
                                   case Bad(e, left) => Bad(e, left + tail))
  {
    var n := FromU16(b[..2]);
    assert (b + tail)[..2] == b[..2] && (b + tail)[2..] == b[2..] + tail;
    assert (b[2..] + tail)[..n] == b[2..][..n] && (b[2..] + tail)[n..] == b[2..][n..] + tail;
  }

  lemma AnOptIsFinal(b: seq<byte>, tail: seq<byte>)
    requires !Early(ParseOpt(b))
    ensures ParseOpt(b + tail) == (match ParseOpt(b)
                                   case Done(s, rest) => Done(s, rest + tail)
                                   case Bad(e, left) => Bad(e, left + tail))
  {
    assert (b + tail)[0] == b[0] && (b + tail)[1..] == b[1..] + tail;
    if b[0] == 1 {
      AStrIsFinal(b[1..], tail);
    }
  }

  lemma FieldsAreFinal(b: seq<byte>, tail: seq<byte>)
    requires !Early(ParseFields(b))
    ensures ParseFields(b + tail) == (match ParseFields(b)
                                      case Done(q, rest) => Done(q, rest + tail)
                                      case Bad(e, left) => Bad(e, left + tail))
  {
    hide ParseStr, ParseOpt;
    AStrIsFinal(b, tail);
    if ParseStr(b).Done? {
      var b1 := ParseStr(b).rest;
      AnOptIsFinal(b1, tail);
      if ParseOpt(b1).Done? {
        AnOptIsFinal(ParseOpt(b1).rest, tail);
      }
    }
  }

  /**
    Whatever a reader makes of what it has read it would make of it with more behind it, unless it found the stream
    to end too soon: that is the one verdict more octets can change.
  */
  lemma AVerdictIsFinal(b: seq<byte>, tail: seq<byte>)
    requires var p := ParseRequest(b); !(p.Bad? && p.error == Io(UnexpectedEof))
    ensures ParseRequest(b + tail) == (match ParseRequest(b)
                                       case Done(q, rest) => Done(q, rest + tail)
                                       case Bad(e, left) => Bad(e, left + tail))
  {
    hide ParseFields;
    assert (b + tail)[..2] == b[..2] && (b + tail)[2..] == b[2..] + tail;
    if |b| >= 4 {
      assert (b[2..] + tail)[..2] == b[2..][..2] && (b[2..] + tail)[2..] == b[2..][2..] + tail;
      assert (b[2..] + tail)[0] == b[2..][0];
      if ParseRequest(b).Done? || ParseRequest(b).error.Io? {
        FieldsAreFinal(b[2..][2..], tail);
      }
    }
  }

  lemma AStrEnds(b: seq<byte>)
    requires |b| >= 2 + MAX_STR
    ensures !Early(ParseStr(b)) && |ParseStr(b).rest| >= |b| - (2 + MAX_STR)
  {
  }

  lemma AnOptEnds(b: seq<byte>)
    requires |b| >= 3 + MAX_STR
    ensures !Early(ParseOpt(b)) && |ParseOpt(b).rest| >= |b| - (3 + MAX_STR)
  {
    hide ParseStr;
    AStrEnds(b[1..]);
  }

  lemma FieldsEnd(b: seq<byte>)
    requires |b| >= MAX_REQUEST - 4
    ensures !Early(ParseFields(b))
  {
    hide ParseStr, ParseOpt;
    AStrEnds(b);
    var b1 := ParseStr(b).rest;
    AnOptEnds(b1);
    AnOptEnds(ParseOpt(b1).rest);
  }

  /** And more octets always change that one in the end: no reader waits past the widest frame there is. */
  lemma NoReaderWaitsPastTheWidestFrame(b: seq<byte>)
    requires |b| >= MAX_REQUEST
    ensures var p := ParseRequest(b); !(p.Bad? && p.error == Io(UnexpectedEof))
  {
    hide ParseFields;
    FieldsEnd(b[2..][2..]);
  }

  /** A response is known as soon, and a detail claimed longer than one may be is refused before any of it is read. */
  lemma AnAnswerIsKnownInTime(b: seq<byte>)
    ensures |b| >= MAX_RESPONSE ==> !Early(ParseResponse(b))
    ensures ParseResponse(b).Bad? && ParseResponse(b).error == TooLong
       <==> |b| >= 4 && b[0] == 1 && (b[1] == 1 || b[1] == 2) && b[2] as nat * 0x100 + b[3] as nat > MAX_DETAIL
    ensures |b| >= 1 && b[0] > 1 ==> ParseResponse(b) == Bad(Unreadable, b[1..])
    ensures |b| >= 2 && b[0] == 1 && b[1] > 2 ==> ParseResponse(b) == Bad(Unreadable, b[2..])
  {
  }

  /** The heads PROTOCOL.md publishes: another version, another protocol, and a neighbouring identity. */
  lemma ThePublishedHeads(body: seq<byte>)
    ensures ParseRequest([0x54, 0x42, 0x30, 0x35] + body) == Bad(Version([0x30, 0x35]), body)
    ensures ParseRequest([0x53, 0x53, 0x48, 0x2d] + body) == Bad(Foreign, [0x48, 0x2d] + body)
    ensures ParseRequest([0x54, 0x42, 0x48, 0x31] + body) == Bad(Foreign, body)
  {
    var skewed: seq<byte> := [0x54, 0x42, 0x30, 0x35] + body;
    assert skewed[..2] == IDENTITY && skewed[2..][..2] == [0x30, 0x35] && skewed[2..][2..] == body;
    var foreign: seq<byte> := [0x53, 0x53, 0x48, 0x2d] + body;
    assert foreign[..2] == [0x53, 0x53] && foreign[0] != IDENTITY[0] && foreign[2..] == [0x48, 0x2d] + body;
    var neighbour: seq<byte> := [0x54, 0x42, 0x48, 0x31] + body;
    assert neighbour[..2] == IDENTITY && neighbour[2..][0] == 0x48 && neighbour[2..][2..] == body;
  }

  /** The answer to a head on version 05 names both versions, in the 110 octets PROTOCOL.md publishes. */
  lemma ThePublishedSkew()
    ensures Tag([0x30, 0x35]) == "TB05" && Tag(VERSION) == "TB04"
    ensures |SkewDetail([0x30, 0x35])| == 110
    ensures SkewText([0x30, 0x35])
         == "tightbeam wire version mismatch: the request is " + "TB05" + ", this host speaks " + "TB04"
            + "; run the same release at both ends"
  {
    assert Tag([0x30, 0x35]) == "TB05" && Tag(VERSION) == "TB04";
  }

  /** No two octets are shown alike, whatever follows them, so a tag tells which version it was. */
  lemma EscapesTellApart(a: byte, b: byte, x: string, y: string)
    requires Escaped(a) + x == Escaped(b) + y
    ensures a == b && x == y
  {
    var s, t := Escaped(a) + x, Escaped(b) + y;
    assert s[0] == Escaped(a)[0] && t[0] == Escaped(b)[0];
    if s[0] == '\\' {
      assert s[1] == Escaped(a)[1] && t[1] == Escaped(b)[1];
      if s[1] == 'x' {
        assert s[2] == Escaped(a)[2] && s[3] == Escaped(a)[3] && t[2] == Escaped(b)[2] && t[3] == Escaped(b)[3];
        HexTellsApart(a as nat / 16, b as nat / 16);
        HexTellsApart(a as nat % 16, b as nat % 16);
      }
    }
    assert |Escaped(a)| == |Escaped(b)|;
    assert x == s[|Escaped(a)|..] && y == t[|Escaped(b)|..];
  }

  lemma HexTellsApart(m: nat, n: nat)
    requires m < 16 && n < 16 && HEX[m] == HEX[n]
    ensures m == n
  {
    assert forall i: nat :: i < 10 ==> HEX[i] as int == 0x30 + i;
    assert forall i: nat :: 10 <= i < 16 ==> HEX[i] as int == 0x57 + i;
  }

  lemma ATagNamesItsVersion(v: WireVersion, w: WireVersion)
    requires Tag(v) == Tag(w)
    ensures v == w
  {
    hide Escaped;
    assert Tag(v)[2..] == Escaped(v[0]) + Escaped(v[1]) && Tag(w)[2..] == Escaped(w[0]) + Escaped(w[1]);
    assert Escaped(v[1]) + [] == Escaped(v[1]) && Escaped(w[1]) + [] == Escaped(w[1]);
    EscapesTellApart(v[0], w[0], Escaped(v[1]), Escaped(w[1]));
    EscapesTellApart(v[1], w[1], [], []);
    assert v == [v[0], v[1]] && w == [w[0], w[1]];
  }
}
