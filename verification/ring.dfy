/**
  The shared ring of a `+lossy` source and the cursors that read it (src/raw_stream_fanout.rs). The ring is
  specified by the whole history of what was appended: it is the last RING_BYTES of it.
*/
module Rings {
  import opened Wrappers
  import opened Octets

  const RING_BYTES: nat := 0x10_0000
  const PUMP_CHUNK: nat := 64 * 1024

  function Last(s: seq<byte>, n: nat): seq<byte> {
    if |s| <= n then s else s[|s| - n..]
  }

  /** What a ring's buffer may hold, at every instant: the ceiling is in the type, so no assignment can pass it. */
  type Held = s: seq<byte> | |s| <= RING_BYTES witness []

  /** A ring's contents: `buf[0]` is the byte at absolute offset `base`. */
  datatype RingState = RingState(buf: seq<byte>, base: nat, closed: bool) {
    function Head(): nat { base + |buf| }

    function Append(bytes: seq<byte>): RingState {
      var kept := Last(buf + bytes, RING_BYTES);
      RingState(kept, base + |buf| + |bytes| - |kept|, closed)
    }

    /** The ring holds exactly the newest bytes of `history`, as many as it has room for. */
    ghost predicate Tails(history: seq<byte>) {
      Head() == |history| && buf == Last(history, RING_BYTES)
    }
  }

  const EMPTY_RING := RingState([], 0, false)

  lemma AppendTails(r: RingState, history: seq<byte>, bytes: seq<byte>)
    requires r.Tails(history)
    ensures r.Append(bytes).Tails(history + bytes)
  {
    var whole := history + bytes;
    if |history| > RING_BYTES {
      assert r.buf + bytes == whole[|history| - RING_BYTES..];
    }
  }

  function AppendAll(r: RingState, chunks: seq<seq<byte>>): RingState {
    if chunks == [] then r else AppendAll(r, chunks[..|chunks| - 1]).Append(chunks[|chunks| - 1])
  }

  function Concat(chunks: seq<seq<byte>>): seq<byte> {
    if chunks == [] then [] else Concat(chunks[..|chunks| - 1]) + chunks[|chunks| - 1]
  }

  /** After any appends of any sizes, the ring is the tail of everything appended, with `base + len = total`. */
  lemma {:induction false} TheRingIsTheTail(chunks: seq<seq<byte>>)
    ensures AppendAll(EMPTY_RING, chunks).Tails(Concat(chunks))
  {
    if chunks != [] {
      TheRingIsTheTail(chunks[..|chunks| - 1]);
      AppendTails(AppendAll(EMPTY_RING, chunks[..|chunks| - 1]), Concat(chunks[..|chunks| - 1]),
                  chunks[|chunks| - 1]);
    }
  }

  /** The one shared byte buffer. */
  class Ring {
    var buf: Held
    var base: nat
    var closed: bool
    ghost var history: seq<byte>

    function State(): RingState
      reads this
    {
      RingState(buf, base, closed)
    }

    ghost predicate Valid()
      reads this
    {
      State().Tails(history)
    }

    constructor ()
      ensures Valid() && history == [] && State() == EMPTY_RING
    {
      buf, base, closed, history := [], 0, false, [];
    }

    /** Dropping the overflow from the front of the two, then joining what is left, is keeping the newest. */
    static lemma EvictThenExtend(held: seq<byte>, bytes: seq<byte>, dropped: nat, skipped: nat)
      requires dropped <= |held| && skipped <= |bytes| && (skipped > 0 ==> dropped == |held|)
      requires dropped + skipped == if |held| + |bytes| > RING_BYTES then |held| + |bytes| - RING_BYTES else 0
      ensures held[dropped..] + bytes[skipped..] == Last(held + bytes, RING_BYTES)
    {
    }

    /**
      Make room by dropping the oldest bytes, then extend: never the other way round, which would put more than
      the ceiling in the buffer for the time between the two.
    */
    method Append(bytes: seq<byte>)
      requires Valid()
      modifies this`buf, this`base, this`history
      ensures Valid() && history == old(history) + bytes
      ensures State() == old(State()).Append(bytes)
    {
      AppendTails(State(), history, bytes);
      var overflow := if |buf| + |bytes| > RING_BYTES then |buf| + |bytes| - RING_BYTES else 0;
      var fromBuffer := if overflow < |buf| then overflow else |buf|;
      if fromBuffer > 0 {
        buf := buf[fromBuffer..];
        base := base + fromBuffer;
      }
      var skipped := overflow - fromBuffer;
      var newest := bytes[skipped..];
      base := base + skipped;
      buf := buf + newest;
      history := history + bytes;
      EvictThenExtend(old(buf), bytes, fromBuffer, skipped);
    }

    /** No byte is appended after this, which the pump's own order sees to. */
    method Close()
      requires Valid()
      modifies this`closed
      ensures Valid() && State() == old(State()).(closed := true)
    {
      closed := true;
    }
  }

  /** Copy `n` bytes from logical offset `start` of a deque held as two slices, across the split. */
  method CopyFromDeque(front: seq<byte>, back: seq<byte>, start: nat, n: nat) returns (out: seq<byte>)
    requires start + n <= |front| + |back|
    ensures out == (front + back)[start..start + n]
  {
    out := [];
    var remaining, offset := n, start;
    var slices := [front, back];
    ghost var passed := 0;
    for k := 0 to 2
      invariant passed == (if k == 0 then 0 else if k == 1 then |front| else |front| + |back|)
      invariant 0 <= remaining && 0 <= offset && remaining + |out| == n
      invariant out == (front + back)[start..start + |out|]
      invariant remaining > 0 ==> passed + offset == start + |out|
    {
      if remaining == 0 {
        break;
      }
      var slice := slices[k];
      assert slice == (front + back)[passed..passed + |slice|];
      if offset >= |slice| {
        offset := offset - |slice|;
      } else {
        var take := if remaining < |slice| - offset then remaining else |slice| - offset;
        assert slice[offset..offset + take] == (front + back)[start + |out|..start + |out| + take];
        out := out + slice[offset..offset + take];
        remaining := remaining - take;
        offset := 0;
      }
      passed := passed + |slice|;
    }
  }

  // ----- one look at the ring --------------------------------------------------------------------------

  datatype Seen = Bytes(bytes: seq<byte>) | EndOfStream | Nothing

  /** What one look at the ring does to a cursor: the gap it loses, whether that is logged, what it reads. */
  datatype Look = Look(pos: nat, lagged: bool, lost: nat, warned: bool, seen: Seen)

  function LookAt(pos: nat, lagged: bool, r: RingState, room: nat): Look {
    var gap := if pos < r.base then r.base - pos else 0;
    var at := pos + gap;
    var behind := lagged || gap > 0;
    if at < r.Head() then
      var n := if r.Head() - at < room then r.Head() - at else room;
      Look(at + n, behind && at + n != r.Head(), gap, gap > 0 && !lagged,
           Bytes(r.buf[at - r.base..at - r.base + n]))
    else
      Look(at, false, gap, gap > 0 && !lagged, if r.closed then EndOfStream else Nothing)
  }

  function Lesser(a: nat, b: nat): nat { if a < b then a else b }

  /**
    What a look gives, against the history: it loses exactly the bytes evicted from under the cursor, which are
    some exactly when the cursor is more than RING_BYTES behind the head; what it reads is the history at the
    position it then has, as much as there is and the buffer has room for; and end of stream is exactly closed and
    caught up.
  */
  lemma LookReadsTheHistory(pos: nat, lagged: bool, r: RingState, room: nat, history: seq<byte>)
    requires r.Tails(history) && pos <= |history|
    ensures var look := LookAt(pos, lagged, r, room);
            && (look.lost > 0 <==> |history| - pos > RING_BYTES)
            && (look.lost > 0 ==> pos + look.lost == |history| - RING_BYTES)
            && pos + look.lost <= look.pos <= |history|
            && (look.seen.Bytes? ==> look.seen.bytes == history[pos + look.lost..look.pos])
            && (!look.seen.Bytes? ==> look.pos == pos + look.lost == |history|)
            && (look.seen.Bytes? ==> |look.seen.bytes| == Lesser(room, |history| - (pos + look.lost)))
            && (look.seen.EndOfStream? <==> r.closed && pos + look.lost == |history|)
  {
    var look := LookAt(pos, lagged, r, room);
    if look.seen.Bytes? {
      assert r.buf == history[r.base..];
    }
  }

  /** A consumer's view of the ring. */
  class Cursor {
    const ring: Ring
    var pos: nat
    var lagged: bool
    ghost var warnings: seq<nat>

    constructor (ring: Ring)
      requires ring.Valid()
      ensures this.ring == ring && pos == |ring.history| && !lagged && warnings == []
    {
      this.ring, pos, lagged, warnings := ring, ring.base + |ring.buf|, false, [];
    }

    /** The lock section of one poll: catch up past what was evicted, then copy what is there. */
    method Inspect(room: nat) returns (seen: Seen)
      requires ring.Valid() && pos <= |ring.history|
      modifies this
      ensures var look := LookAt(old(pos), old(lagged), ring.State(), room);
              && seen == look.seen && pos == look.pos && lagged == look.lagged
              && warnings == old(warnings) + if look.warned then [look.lost] else []
    {
      if pos < ring.base {
        if !lagged {
          warnings := warnings + [ring.base - pos];
          lagged := true;
        }
        pos := ring.base;
      }
      if pos < ring.base + |ring.buf| {
        var start := pos - ring.base;
        var available := |ring.buf| - start;
        var n := if available < room then available else room;
        var bytes := CopyOut(ring.buf, start, n);
        pos := pos + n;
        if pos == ring.base + |ring.buf| {
          lagged := false;
        }
        return Bytes(bytes);
      }
      lagged := false;
      seen := if ring.closed then EndOfStream else Nothing;
    }
  }

  /** Where the deque wraps is not observable: any split of the buffer into two slices reads the same. */
  method CopyOut(buf: seq<byte>, start: nat, n: nat) returns (out: seq<byte>)
    requires start + n <= |buf|
    ensures out == buf[start..start + n]
  {
    var split: nat :| split <= |buf|;
    assert buf[..split] + buf[split..] == buf;
    out := CopyFromDeque(buf[..split], buf[split..], start, n);
  }
}
