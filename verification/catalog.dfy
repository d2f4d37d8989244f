/**
  The service catalog's wire form (src/tunnel/catalog.rs): a count and that many entries, encoded by pushing
  octets and decoded by a cursor over a blob nobody vouches for.
*/
module Catalog {
  import opened Wrappers
  import opened Octets
  import opened Protocol
  import Utf8

  const MAX_SERVICE_NAME_LEN: nat := 256
  const MAX_CATALOG_ENTRIES: nat := 1024
  const COUNT_PREFIX_LEN: nat := 4
  const ENTRY_OVERHEAD_LEN: nat := 3
  const MAX_CATALOG_BLOB: nat := COUNT_PREFIX_LEN + MAX_CATALOG_ENTRIES * (ENTRY_OVERHEAD_LEN + MAX_SERVICE_NAME_LEN)

  datatype Posture = Gated | Open {
    function Tag(): byte { if Gated? then 0 else 1 }
  }

  function FromTag(tag: byte): Result<Posture, DecodeError> {
    if tag == 0 then Success(Gated) else if tag == 1 then Success(Open) else Failure(UnknownPosture(tag))
  }

  datatype Entry = Entry(name: Text, posture: Posture)

  datatype EncodeError = TooManyServices(count: nat) | NameTooLong(name: Text)

  datatype DecodeError =
    | Truncated
    | TooMany(count: nat)
    | NameOver(len: nat)
    | NotUtf8
    | UnknownPosture(tag: byte)
    | Trailing

  /** A value and what is left of the blob, or why there is none. */
  datatype Taken<+T> = Took(value: T, rest: seq<byte>) | Failed(error: DecodeError)

  predicate InBounds(entries: seq<Entry>) {
    && |entries| <= MAX_CATALOG_ENTRIES
    && forall i :: 0 <= i < |entries| ==> |entries[i].name| <= MAX_SERVICE_NAME_LEN
  }

  // ----- the layout ------------------------------------------------------------------------------------

  /** Big-endian: the high half first. */
  function U32(n: nat): (b: seq<byte>)
    requires n < 0x1_0000_0000
    ensures |b| == 4
  {
    U16(n / 0x1_0000) + U16(n % 0x1_0000)
  }

  function FromU32(b: seq<byte>): (n: nat)
    requires |b| == 4
    ensures n < 0x1_0000_0000
  {
    FromU16(b[..2]) * 0x1_0000 + FromU16(b[2..])
  }

  lemma U32RoundTrips(b: seq<byte>, n: nat)
    requires |b| == 4 && n < 0x1_0000_0000
    ensures U32(FromU32(b)) == b && FromU32(U32(n)) == n
  {
    U16RoundTrips(b[..2], n / 0x1_0000);
    U16RoundTrips(b[2..], n % 0x1_0000);
    assert U32(n)[..2] == U16(n / 0x1_0000) && U32(n)[2..] == U16(n % 0x1_0000);
    assert b == b[..2] + b[2..];
    assert FromU32(b) / 0x1_0000 == FromU16(b[..2]) && FromU32(b) % 0x1_0000 == FromU16(b[2..]);
  }

  function EntryOctets(e: Entry): seq<byte>
    requires |e.name| <= MAX_SERVICE_NAME_LEN
  {
    U16(|e.name|) + (e.name + [e.posture.Tag()])
  }

  function Body(entries: seq<Entry>): seq<byte>
    requires forall i :: 0 <= i < |entries| ==> |entries[i].name| <= MAX_SERVICE_NAME_LEN
  {
    if entries == [] then [] else EntryOctets(entries[0]) + Body(entries[1..])
  }

  function Blob(entries: seq<Entry>): seq<byte>
    requires InBounds(entries)
  {
    U32(|entries|) + Body(entries)
  }

  function ParseEntry(b: seq<byte>): Taken<Entry> {
    if |b| < 2 then Failed(Truncated)
    else
      var n := FromU16(b[..2]);
      if n > MAX_SERVICE_NAME_LEN then Failed(NameOver(n))
      else if |b[2..]| < n then Failed(Truncated)
      else if !Utf8.Valid(b[2..][..n]) then Failed(NotUtf8)
      else if |b[2..][n..]| < 1 then Failed(Truncated)
      else
        match FromTag(b[2..][n..][0])
        case Failure(e) => Failed(e)
        case Success(posture) => Took(Entry(b[2..][..n], posture), b[2..][n..][1..])
  }

  /** `n` more entries after `before`. */
  function ParseEntries(before: seq<Entry>, b: seq<byte>, n: nat): Taken<seq<Entry>>
    decreases n
  {
    if n == 0 then Took(before, b)
    else
      match ParseEntry(b)
      case Failed(e) => Failed(e)
      case Took(entry, rest) => ParseEntries(before + [entry], rest, n - 1)
  }

  function ParseBlob(b: seq<byte>): Result<seq<Entry>, DecodeError> {
    if |b| < 4 then Failure(Truncated)
    else if FromU32(b[..4]) > MAX_CATALOG_ENTRIES then Failure(TooMany(FromU32(b[..4])))
    else Whole(ParseEntries([], b[4..], FromU32(b[..4])))
  }

  /** A parse that must have used the blob up. */
  function Whole(p: Taken<seq<Entry>>): Result<seq<Entry>, DecodeError> {
    match p
    case Failed(e) => Failure(e)
    case Took(entries, rest) => if rest == [] then Success(entries) else Failure(Trailing)
  }

  // ----- the codec -------------------------------------------------------------------------------------

  /** Encoding succeeds exactly when both bounds hold; the name it blames is the first too long. */
  method Encode(entries: seq<Entry>) returns (r: Result<seq<byte>, EncodeError>)
    ensures r.Success? <==> InBounds(entries)
    ensures r.Success? ==> r.value == Blob(entries)
    ensures |entries| > MAX_CATALOG_ENTRIES ==> r == Failure(TooManyServices(|entries|))
    ensures r.Failure? && r.error.NameTooLong? ==>
      exists i :: 0 <= i < |entries| && entries[i].name == r.error.name && |entries[i].name| > MAX_SERVICE_NAME_LEN
                  && forall j :: 0 <= j < i ==> |entries[j].name| <= MAX_SERVICE_NAME_LEN
  {
    if |entries| > MAX_CATALOG_ENTRIES {
      return Failure(TooManyServices(|entries|));
    }
    var i := 0;
    while i < |entries|
      invariant 0 <= i <= |entries|
      invariant forall j :: 0 <= j < i ==> |entries[j].name| <= MAX_SERVICE_NAME_LEN
    {
      if |entries[i].name| > MAX_SERVICE_NAME_LEN {
        return Failure(NameTooLong(entries[i].name));
      }
      i := i + 1;
    }
    var out := U32(|entries|);
    i := 0;
    while i < |entries|
      invariant 0 <= i <= |entries|
      invariant out + Body(entries[i..]) == Blob(entries)
    {
      var name := entries[i].name;
      ghost var before, after := out, Body(entries[i + 1..]);
      assert entries[i..][1..] == entries[i + 1..];
      assert Body(entries[i..]) == EntryOctets(entries[i]) + after;
      out := out + U16(|name|);
      out := out + name;
      out := out + [entries[i].posture.Tag()];
      assert out == before + EntryOctets(entries[i]);
      Joined(before, EntryOctets(entries[i]), after);
      i := i + 1;
    }
    assert out + [] == out;
    r := Success(out);
  }

  method Take(bytes: seq<byte>, cursor: nat, len: nat) returns (r: Result<seq<byte>, DecodeError>, after: nat)
    requires cursor <= |bytes|
    ensures cursor <= after <= |bytes|
    ensures r.Success? <==> len <= |bytes[cursor..]|
    ensures r.Success? ==> r.value == bytes[cursor..][..len] && bytes[after..] == bytes[cursor..][len..]
    ensures r.Failure? ==> r.error == Truncated && after == cursor
  {
    if |bytes| - cursor < len {
      return Failure(Truncated), cursor;
    }
    return Success(bytes[cursor..cursor + len]), cursor + len;
  }

  method TakeEntry(bytes: seq<byte>, cursor: nat) returns (r: Result<Entry, DecodeError>, after: nat)
    requires cursor <= |bytes|
    ensures cursor <= after <= |bytes|
    ensures match ParseEntry(bytes[cursor..])
            case Took(entry, rest) => r == Success(entry) && bytes[after..] == rest
            case Failed(e) => r == Failure(e)
  {
    var len;
    len, after := Take(bytes, cursor, 2);
    if len.Failure? {
      return Failure(len.error), after;
    }
    var n := FromU16(len.value);
    if n > MAX_SERVICE_NAME_LEN {
      return Failure(NameOver(n)), after;
    }
    var name;
    name, after := Take(bytes, after, n);
    if name.Failure? {
      return Failure(name.error), after;
    }
    if !Utf8.Valid(name.value) {
      return Failure(NotUtf8), after;
    }
    var tag;
    tag, after := Take(bytes, after, 1);
    if tag.Failure? {
      return Failure(tag.error), after;
    }
    var posture := FromTag(tag.value[0]);
    r := if posture.Success? then Success(Entry(name.value, posture.value)) else Failure(posture.error);
  }

  /** Total on every blob, the cursor never past its end. */
  method Decode(bytes: seq<byte>) returns (r: Result<seq<Entry>, DecodeError>)
    ensures r == ParseBlob(bytes)
  {
    var prefix, cursor := Take(bytes, 0, 4);
    assert bytes[0..] == bytes;
    if prefix.Failure? {
      return Failure(prefix.error);
    }
    var count := FromU32(prefix.value);
    if count > MAX_CATALOG_ENTRIES {
      return Failure(TooMany(count));
    }
    assert bytes[cursor..] == bytes[4..];
    r := DecodeEntries(bytes, cursor, count);
  }

  method DecodeEntries(bytes: seq<byte>, start: nat, count: nat) returns (r: Result<seq<Entry>, DecodeError>)
    requires start <= |bytes|
    ensures r == Whole(ParseEntries([], bytes[start..], count))
  {
    hide ParseEntry;
    var entries: seq<Entry>, cursor, i := [], start, 0;
    while i < count
      invariant 0 <= i <= count && 0 <= cursor <= |bytes|
      invariant ParseEntries([], bytes[start..], count) == ParseEntries(entries, bytes[cursor..], count - i)
    {
      var entry, after := TakeEntry(bytes, cursor);
      if entry.Failure? {
        return Failure(entry.error);
      }
      entries, cursor, i := entries + [entry.value], after, i + 1;
    }
    r := if cursor != |bytes| then Failure(Trailing) else Success(entries);
  }

  // ----- what the codec promises -----------------------------------------------------------------------

  lemma EntryRoundTrips(e: Entry, tail: seq<byte>)
    requires |e.name| <= MAX_SERVICE_NAME_LEN
    ensures ParseEntry(EntryOctets(e) + tail) == Took(e, tail)
  {
    var b := EntryOctets(e) + tail;
    U16RoundTrips(b[..2], |e.name|);
    assert b[..2] == U16(|e.name|);
    assert b[2..] == e.name + ([e.posture.Tag()] + tail);
    assert b[2..][..|e.name|] == e.name && b[2..][|e.name|..] == [e.posture.Tag()] + tail;
    assert ([e.posture.Tag()] + tail)[1..] == tail;
  }

  lemma Cut(b: seq<byte>, n: nat)
    requires n <= |b|
    ensures b == b[..n] + b[n..]
  {}

  lemma EntryIsCanonical(b: seq<byte>)
    requires ParseEntry(b).Took?
    ensures var p := ParseEntry(b);
            && |p.value.name| <= MAX_SERVICE_NAME_LEN && b == EntryOctets(p.value) + p.rest
  {
    var n := FromU16(b[..2]);
    U16RoundTrips(b[..2], n);
    var c := b[2..];
    Cut(b, 2);
    Cut(c, n);
    Cut(c[n..], 1);
    Joined(U16(n), c[..n], c[n..]);
    Joined(c[..n], c[n..][..1], c[n..][1..]);
    Joined(U16(n), c[..n] + c[n..][..1], c[n..][1..]);
  }

  lemma {:induction false} BodyRoundTrips(before: seq<Entry>, entries: seq<Entry>, tail: seq<byte>)
    requires forall i :: 0 <= i < |entries| ==> |entries[i].name| <= MAX_SERVICE_NAME_LEN
    ensures ParseEntries(before, Body(entries) + tail, |entries|) == Took(before + entries, tail)
    decreases |entries|
  {
    if entries == [] {
      assert Body(entries) + tail == tail && before + entries == before;
    } else {
      Joined(EntryOctets(entries[0]), Body(entries[1..]), tail);
      EntryRoundTrips(entries[0], Body(entries[1..]) + tail);
      BodyRoundTrips(before + [entries[0]], entries[1..], tail);
      assert before + [entries[0]] + entries[1..] == before + entries;
    }
  }

  lemma {:induction false} BodyIsCanonical(before: seq<Entry>, b: seq<byte>, n: nat) returns (more: seq<Entry>)
    requires ParseEntries(before, b, n).Took?
    ensures |more| == n && forall i :: 0 <= i < n ==> |more[i].name| <= MAX_SERVICE_NAME_LEN
    ensures ParseEntries(before, b, n).value == before + more
    ensures b == Body(more) + ParseEntries(before, b, n).rest
    decreases n
  {
    hide ParseEntry;
    more := [];
    if n > 0 {
      EntryIsCanonical(b);
      var first := ParseEntry(b);
      var after := BodyIsCanonical(before + [first.value], first.rest, n - 1);
      more := [first.value] + after;
      assert more[1..] == after && before + more == before + [first.value] + after;
      Joined(EntryOctets(first.value), Body(after), ParseEntries(before, b, n).rest);
    }
  }

  /** A catalog that encodes decodes to itself, in whatever order and with whatever repeats it names services. */
  lemma DecodeInvertsEncode(entries: seq<Entry>)
    requires InBounds(entries)
    ensures ParseBlob(Blob(entries)) == Success(entries)
  {
    hide ParseEntry;
    assert [] + entries == entries;
    var b := Blob(entries);
    U32RoundTrips(b[..4], |entries|);
    assert b[..4] == U32(|entries|) && b[4..] == Body(entries) + [];
    BodyRoundTrips([], entries, []);
  }

  /** Whatever decodes is exactly what its encoder emits: no two blobs say the same thing. */
  lemma AcceptedBlobsAreCanonical(b: seq<byte>)
    requires ParseBlob(b).Success?
    ensures var entries := ParseBlob(b).value; InBounds(entries) && Blob(entries) == b
  {
    var n := FromU32(b[..4]);
    U32RoundTrips(b[..4], n);
    var entries := BodyIsCanonical([], b[4..], n);
    assert [] + entries == entries;
    assert b[4..] == Body(entries) + [] == Body(entries);
    assert b == b[..4] + b[4..];
  }

  lemma {:induction false} BodyIsBounded(entries: seq<Entry>)
    requires forall i :: 0 <= i < |entries| ==> |entries[i].name| <= MAX_SERVICE_NAME_LEN
    ensures |Body(entries)| <= |entries| * 259
    ensures (forall i :: 0 <= i < |entries| ==> |entries[i].name| == MAX_SERVICE_NAME_LEN)
        ==> |Body(entries)| == |entries| * 259
  {
    if entries != [] {
      BodyIsBounded(entries[1..]);
    }
  }

  function Widest(): (entries: seq<Entry>)
    ensures |entries| == MAX_CATALOG_ENTRIES
    ensures forall i :: 0 <= i < |entries| ==> |entries[i].name| == MAX_SERVICE_NAME_LEN
  {
    LettersFit(MAX_SERVICE_NAME_LEN);
    var name: Text := seq(MAX_SERVICE_NAME_LEN, _ => 0x61);
    seq(MAX_CATALOG_ENTRIES, _ => Entry(name, Gated))
  }

  lemma AcceptedBlobsAreBounded(b: seq<byte>)
    requires ParseBlob(b).Success?
    ensures |b| <= MAX_CATALOG_BLOB
  {
    AcceptedBlobsAreCanonical(b);
    var entries := ParseBlob(b).value;
    BodyIsBounded(entries);
    assert |b| == 4 + |Body(entries)|;
  }

  lemma WidestReachesTheBound()
    ensures ParseBlob(Blob(Widest())).Success? && |Blob(Widest())| == MAX_CATALOG_BLOB
  {
    DecodeInvertsEncode(Widest());
    BodyIsBounded(Widest());
  }

  /** A reader that stops at the bound loses no catalog, and one octet less would lose some. */
  lemma TheBlobBoundIsExact()
    ensures MAX_CATALOG_BLOB == 265220
    ensures forall b :: ParseBlob(b).Success? ==> |b| <= MAX_CATALOG_BLOB
    ensures exists b :: ParseBlob(b).Success? && |b| == MAX_CATALOG_BLOB
  {
    forall b | ParseBlob(b).Success? ensures |b| <= MAX_CATALOG_BLOB {
      AcceptedBlobsAreBounded(b);
    }
    WidestReachesTheBound();
  }

  /** The layout, at one catalog: the count, then a length, a name and a posture for each entry. */
  lemma TheLayout()
    ensures var entries := [Entry(Ascii("a"), Gated), Entry(Ascii("web"), Open)];
            InBounds(entries)
            && Blob(entries) == [0x00, 0x00, 0x00, 0x02] + ([0x00, 0x01, 0x61, 0x00]
                                                             + ([0x00, 0x03, 0x77, 0x65, 0x62, 0x01] + []))
  {
    var entries := [Entry(Ascii("a"), Gated), Entry(Ascii("web"), Open)];
    assert Ascii("a") == [0x61] && Ascii("web") == [0x77, 0x65, 0x62];
    assert EntryOctets(entries[0]) == [0x00, 0x01, 0x61, 0x00];
    assert EntryOctets(entries[1]) == [0x00, 0x03, 0x77, 0x65, 0x62, 0x01];
    assert entries[1..] == [entries[1]] && [entries[1]][1..] == [];
    assert Body(entries[1..]) == EntryOctets(entries[1]) + Body([]);
    assert U32(2) == [0x00, 0x00, 0x00, 0x02];
  }

  /** What a blob is refused for before its entries are looked at, and what its first entry is. */
  lemma TheBoundsAreAskedFirst(b: seq<byte>)
    ensures |b| < 4 ==> ParseBlob(b) == Failure(Truncated)
    ensures forall n :: ParseBlob(b) == Failure(TooMany(n)) <==> |b| >= 4 && n == FromU32(b[..4]) > MAX_CATALOG_ENTRIES
    ensures forall n ::
              ParseEntry(b) == Failed(NameOver(n)) <==> |b| >= 2 && n == FromU16(b[..2]) > MAX_SERVICE_NAME_LEN
    ensures forall tag :: ParseEntry(b) == Failed(UnknownPosture(tag)) ==> tag > 1 && tag in b
    ensures ParseEntry(b) == Failed(Truncated) ==> |b| < ENTRY_OVERHEAD_LEN + MAX_SERVICE_NAME_LEN
  {
    if |b| >= 4 {
      EntriesAreNotCounted([], b[4..], FromU32(b[..4]));
    }
    if ParseEntry(b).Failed? && ParseEntry(b).error.UnknownPosture? {
      var n := FromU16(b[..2]);
      assert b[2..][n..][0] == b[2 + n];
    }
  }

  lemma {:induction false} EntriesAreNotCounted(before: seq<Entry>, b: seq<byte>, n: nat)
    ensures var p := ParseEntries(before, b, n); p.Failed? ==> !p.error.TooMany? && !p.error.Trailing?
    decreases n
  {
    if n > 0 && ParseEntry(b).Took? {
      EntriesAreNotCounted(before + [ParseEntry(b).value], ParseEntry(b).rest, n - 1);
    }
  }

  /** Decoding takes names in any order and more than once: the order is the encoder's habit, not the wire's rule. */
  lemma DecodeDoesNotAskForOrder()
    ensures exists b, entries: seq<Entry> ::
      ParseBlob(b) == Success(entries) && |entries| == 3 && entries[0] == entries[2] && entries[1].name == [0x61]
      && entries[0].name == [0x62]
  {
    LettersFit(1);
    Utf8.AsciiIsValid([0x62]);
    assert seq(1, _ => 0x61 as byte) == [0x61];
    var b, a := Entry([0x62], Open), Entry([0x61], Open);
    DecodeInvertsEncode([b, a, b]);
    assert [b, a, b][0] == [b, a, b][2];
  }
}
