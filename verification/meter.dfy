/**
  The stall gauge of a `stdin:` seat holder (src/raw_stream/seat.rs): a timed automaton fed one write
  outcome at a time. The theorems relate the gauge to the whole trace of writes, in both directions.
*/
module Metering {
  import opened Wrappers

  /** Nanoseconds on the monotonic clock. */
  type Instant = nat

  const SECOND: nat := 1_000_000_000
  const STALL_WINDOW: nat := 90 * SECOND
  const STALL_MIN_BYTES: nat := 128 * 1024
  const STALL_CLEAR: nat := SECOND

  const U64_MAX: nat := 0xffff_ffff_ffff_ffff

  /** How many bytes one write took: never more than a slice can hold. */
  type WriteLen = n: nat | n <= 0x7fff_ffff_ffff_ffff

  /** One poll of the holder's peer-facing writer. */
  datatype Polled = Pending | Taken(bytes: WriteLen) | Failed

  datatype Write = Write(at: Instant, polled: Polled)

  datatype Writer = Unrefused | Refused | ClearSince(at: Instant)

  datatype Window = Window(start: Instant, taken: nat)

  function Since(now: Instant, past: Instant): nat {
    if now >= past then now - past else 0
  }

  datatype Gauge = Gauge(writer: Writer, window: Option<Window>) {
    predicate Open(now: Instant) {
      match (window, writer)
      case (None, _) => false
      case (Some(_), Unrefused) => false
      case (Some(_), Refused) => true
      case (Some(_), ClearSince(clear)) => Since(now, clear) < STALL_CLEAR
    }

    predicate Preemptible(now: Instant) {
      Open(now) && Since(now, window.value.start) >= STALL_WINDOW
    }

    function Record(polled: Polled, now: Instant): Gauge {
      match polled
      case Pending =>
        if writer.Refused? then this
        else if Open(now) then this.(writer := Refused)
        else Gauge(Refused, Some(Window(now, 0)))
      case Taken(n) =>
        var clear := if writer.Refused? then ClearSince(now) else writer;
        if window.None? then this.(writer := clear)
        else if window.value.taken + n >= STALL_MIN_BYTES then Gauge(clear, Some(Window(now, 0)))
        else Gauge(clear, Some(Window(window.value.start, window.value.taken + n)))
      case Failed => this
    }

    predicate Bounded() {
      window.Some? ==> window.value.taken < STALL_MIN_BYTES
    }
  }

  const FRESH := Gauge(Unrefused, None)

  /** The gauge as the seat keeps it: written on every write, read when another peer dials. */
  class Meter {
    var writer: Writer
    var window: Option<Window>

    function State(): Gauge
      reads this
    {
      Gauge(writer, window)
    }

    constructor ()
      ensures State() == FRESH
    {
      writer, window := Unrefused, None;
    }

    method Record(polled: Polled, now: Instant)
      requires State().Bounded()
      modifies this
      ensures State() == old(State()).Record(polled, now)
      ensures State().Bounded()
    {
      match polled
      case Pending =>
        if writer.Refused? {
          return;
        }
        if !State().Open(now) {
          window := Some(Window(now, 0));
        }
        writer := Refused;
      case Taken(taken) =>
        if writer.Refused? {
          writer := ClearSince(now);
        }
        if window.Some? {
          assert window.value.taken + taken <= U64_MAX;
          window := Some(window.value.(taken := window.value.taken + taken));
          if window.value.taken >= STALL_MIN_BYTES {
            window := Some(Window(now, 0));
          }
        }
      case Failed =>
    }

    method Preemptible(now: Instant) returns (may: bool)
      ensures may == State().Preemptible(now)
    {
      match window
      case Some(w) =>
        may := State().Open(now);
        if may {
          may := Since(now, w.start) >= STALL_WINDOW;
        }
      case None =>
        may := false;
    }
  }

  // ----- the trace -----------------------------------------------------------------------------------

  ghost predicate Ordered(t: seq<Write>) {
    forall i, j :: 0 <= i <= j < |t| ==> t[i].at <= t[j].at
  }

  /** The gauge after the first `i` writes. */
  function GaugeAt(t: seq<Write>, i: nat): Gauge
    requires i <= |t|
  {
    if i == 0 then FRESH else GaugeAt(t, i - 1).Record(t[i - 1].polled, t[i - 1].at)
  }

  /** The bytes taken by writes `from..to`. */
  function TakenIn(t: seq<Write>, from: nat, to: nat): nat
    requires to <= |t|
  {
    if to <= from then 0
    else TakenIn(t, from, to - 1) + (if t[to - 1].polled.Taken? then t[to - 1].polled.bytes else 0)
  }

  /** Whether the last write to succeed or be refused, among the first `i`, was refused. */
  predicate RefusedAt(t: seq<Write>, i: nat)
    requires i <= |t|
  {
    i > 0 && (t[i - 1].polled.Pending? || (t[i - 1].polled.Failed? && RefusedAt(t, i - 1)))
  }

  /** Write `j` ends a refusal: it took bytes while the writer was waiting on its peer. */
  predicate EndsRefusal(t: seq<Write>, j: nat)
    requires j < |t|
  {
    t[j].polled.Taken? && RefusedAt(t, j)
  }

  /** A refusal ended at write `j`, and none of the first `i` writes has been refused since. */
  ghost predicate LastEnd(t: seq<Write>, i: nat, j: nat)
    requires i <= |t|
  {
    j < i && EndsRefusal(t, j) && forall m :: j < m < i ==> !t[m].polled.Pending?
  }

  /** At `now`, after `i` writes, the writer has gone a whole STALL_CLEAR with every write taken. */
  ghost predicate ClearedBy(t: seq<Write>, i: nat, now: Instant)
    requires i <= |t|
  {
    exists j: nat :: LastEnd(t, i, j) && t[j].at + STALL_CLEAR <= now
  }

  /** The writer never went a whole STALL_CLEAR unrefused, from before write `from` until `now`. */
  ghost predicate NeverCleared(t: seq<Write>, from: nat, to: nat, now: Instant)
    requires to <= |t|
  {
    && (forall i :: from <= i < to ==> !ClearedBy(t, i, t[i].at))
    && !ClearedBy(t, to, now)
  }

  /** `now` is an instant at which exactly the first `i` writes have happened. */
  ghost predicate At(t: seq<Write>, i: nat, now: Instant) {
    && i <= |t|
    && (i > 0 ==> t[i - 1].at <= now)
    && (i < |t| ==> now <= t[i].at)
  }

  /**
    What a dialer is told when the holder is preemptible: a period of at least STALL_WINDOW, from write `k`
    to `now`, in which fewer than STALL_MIN_BYTES were taken and the writer never cleared.
  */
  ghost predicate Stalled(t: seq<Write>, k: nat, now: Instant) {
    && k < |t|
    && t[k].at + STALL_WINDOW <= now
    && TakenIn(t, k + 1, |t|) < STALL_MIN_BYTES
    && NeverCleared(t, k + 1, |t|, now)
  }

  // ----- what the two fields of the gauge mean ---------------------------------------------------------

  lemma {:induction false} WriterMeaning(t: seq<Write>, i: nat)
    requires i <= |t|
    ensures GaugeAt(t, i).Bounded()
    ensures GaugeAt(t, i).writer.Refused? <==> RefusedAt(t, i)
    ensures GaugeAt(t, i).writer.Unrefused? <==> forall m :: 0 <= m < i ==> !t[m].polled.Pending?
    ensures GaugeAt(t, i).writer.Unrefused? <==> GaugeAt(t, i).window.None?
    ensures forall j: nat :: LastEnd(t, i, j) ==> GaugeAt(t, i).writer == ClearSince(t[j].at)
    ensures GaugeAt(t, i).writer.ClearSince? ==> exists j: nat :: LastEnd(t, i, j)
  {
    if i > 0 {
      WriterMeaning(t, i - 1);
      var g := GaugeAt(t, i - 1);
      forall j: nat | LastEnd(t, i, j)
        ensures GaugeAt(t, i).writer == ClearSince(t[j].at)
      {
        if j < i - 1 {
          assert LastEnd(t, i - 1, j);
        }
      }
      if GaugeAt(t, i).writer.ClearSince? {
        if g.writer.Refused? {
          assert LastEnd(t, i, i - 1);
        } else {
          var j: nat :| LastEnd(t, i - 1, j);
          assert LastEnd(t, i, j);
        }
      }
    }
  }

  lemma OpenMeaning(t: seq<Write>, i: nat, now: Instant)
    requires i <= |t| && Ordered(t)
    requires i > 0 ==> t[i - 1].at <= now
    ensures GaugeAt(t, i).Open(now) <==> GaugeAt(t, i).window.Some? && !ClearedBy(t, i, now)
  {
    WriterMeaning(t, i);
    if GaugeAt(t, i).writer.ClearSince? {
      var j: nat :| LastEnd(t, i, j);
    }
  }

  // ----- soundness -------------------------------------------------------------------------------------

  /** A window open now was opened by the last write, or was open when that write came. */
  lemma WindowMoves(t: seq<Write>, i: nat, now: Instant)
    requires i <= |t| && Ordered(t)
    requires i > 0 ==> t[i - 1].at <= now
    requires GaugeAt(t, i).Open(now)
    ensures i > 0 && !ClearedBy(t, i, now)
    ensures
      || GaugeAt(t, i).window == Some(Window(t[i - 1].at, 0))
      || (&& GaugeAt(t, i - 1).Open(t[i - 1].at)
          && GaugeAt(t, i).window.value.start == GaugeAt(t, i - 1).window.value.start
          && GaugeAt(t, i).window.value.taken == GaugeAt(t, i - 1).window.value.taken + TakenIn(t, i - 1, i))
  {
    OpenMeaning(t, i, now);
    WriterMeaning(t, i - 1);
  }

  /** An open window was opened (or last restarted) by some write `k`, and describes everything since. */
  lemma {:induction false} WindowMeaning(t: seq<Write>, i: nat, now: Instant) returns (k: nat)
    requires i <= |t| && Ordered(t)
    requires i > 0 ==> t[i - 1].at <= now
    requires GaugeAt(t, i).Open(now)
    ensures k < i
    ensures GaugeAt(t, i).window == Some(Window(t[k].at, TakenIn(t, k + 1, i)))
    ensures TakenIn(t, k + 1, i) < STALL_MIN_BYTES
    ensures NeverCleared(t, k + 1, i, now)
  {
    WindowMoves(t, i, now);
    WriterMeaning(t, i);
    if GaugeAt(t, i).window == Some(Window(t[i - 1].at, 0)) {
      k := i - 1;
    } else {
      k := WindowMeaning(t, i - 1, t[i - 1].at);
    }
  }

  /** Soundness: a preemptible holder has been stalled for a whole window. */
  lemma PreemptibleIsStalled(t: seq<Write>, now: Instant)
    requires Ordered(t) && At(t, |t|, now)
    requires GaugeAt(t, |t|).Preemptible(now)
    ensures exists k: nat :: Stalled(t, k, now)
  {
    var k := WindowMeaning(t, |t|, now);
    assert Stalled(t, k, now);
  }

  /** A holder that took STALL_MIN_BYTES within the last STALL_WINDOW keeps its seat. */
  lemma AReaderIsNeverPreemptible(t: seq<Write>, now: Instant, from: nat)
    requires Ordered(t) && At(t, |t|, now) && from <= |t|
    requires forall i :: from <= i < |t| ==> now < t[i].at + STALL_WINDOW
    requires TakenIn(t, from, |t|) >= STALL_MIN_BYTES
    ensures !GaugeAt(t, |t|).Preemptible(now)
  {
    if GaugeAt(t, |t|).Preemptible(now) {
      var k := WindowMeaning(t, |t|, now);
      TakenInShrinks(t, k + 1, from, |t|);
    }
  }

  /** So does one whose every write was taken at once, however long ago it was seated. */
  lemma AnUnrefusedHolderIsNeverPreemptible(t: seq<Write>, now: Instant)
    requires forall i :: 0 <= i < |t| ==> !t[i].polled.Pending?
    ensures !GaugeAt(t, |t|).Preemptible(now)
  {
    WriterMeaning(t, |t|);
  }

  lemma {:induction false} TakenInShrinks(t: seq<Write>, a: nat, b: nat, i: nat)
    requires a <= b && i <= |t|
    ensures TakenIn(t, b, i) <= TakenIn(t, a, i)
  {
    if b < i {
      TakenInShrinks(t, a, b, i - 1);
    }
  }

  // ----- completeness ----------------------------------------------------------------------------------

  /** `w`, carried from write `i` to write `p` with no restart. */
  ghost predicate Carried(t: seq<Write>, i: nat, p: nat, w: Window)
    requires i <= p <= |t|
  {
    GaugeAt(t, p).window == Some(w.(taken := w.taken + TakenIn(t, i, p)))
  }

  /** The window is the one write `r` restarted, and before `r` it was still `w`. */
  ghost predicate RestartedOnce(t: seq<Write>, i: nat, p: nat, w: Window, r: nat)
    requires i <= p <= |t|
  {
    && i <= r < p
    && Carried(t, i, r, w)
    && w.taken + TakenIn(t, i, r + 1) >= STALL_MIN_BYTES
    && GaugeAt(t, p).window == Some(Window(t[r].at, TakenIn(t, r + 1, p)))
  }

  /** One write either lets an open window run on or restarts it. */
  lemma OneMoreWrite(t: seq<Write>, i: nat, p: nat, w: Window)
    requires Ordered(t) && i < p <= |t|
    requires Carried(t, i, p - 1, w) && GaugeAt(t, p - 1).Open(t[p - 1].at)
    ensures Carried(t, i, p, w) || RestartedOnce(t, i, p, w, p - 1)
  {}

  /** A window restarted once runs on while little is taken. */
  lemma OneMoreWriteAfter(t: seq<Write>, i: nat, p: nat, w: Window, r: nat)
    requires Ordered(t) && i < p <= |t|
    requires RestartedOnce(t, i, p - 1, w, r) && GaugeAt(t, p - 1).Open(t[p - 1].at)
    requires TakenIn(t, r + 1, p) < STALL_MIN_BYTES
    ensures RestartedOnce(t, i, p, w, r)
  {}

  /** While fewer than STALL_MIN_BYTES are taken and the writer never clears, a window restarts at most once. */
  lemma {:induction false} RestartsAtMostOnce(t: seq<Write>, i: nat, p: nat, w: Window) returns (r: nat)
    requires Ordered(t) && i <= p <= |t|
    requires GaugeAt(t, i).window == Some(w)
    requires TakenIn(t, i, p) < STALL_MIN_BYTES
    requires forall q :: i <= q < p ==> !ClearedBy(t, q, t[q].at)
    ensures Carried(t, i, p, w) || RestartedOnce(t, i, p, w, r)
  {
    r := i;
    if i < p {
      r := RestartsAtMostOnce(t, i, p - 1, w);
      OpenMeaning(t, p - 1, t[p - 1].at);
      if Carried(t, i, p - 1, w) {
        OneMoreWrite(t, i, p, w);
        r := p - 1;
      } else {
        TakenInShrinks(t, i, r + 1, p);
        OneMoreWriteAfter(t, i, p, w, r);
      }
    }
  }

  /**
    The evasion bound: a holder whose window is open at `start`, and which takes fewer than STALL_MIN_BYTES
    over the next two STALL_WINDOWs without clearing, is preemptible at some instant of them.
  */
  lemma TwoWindowsCatchAHolder(t: seq<Write>, i: nat, start: Instant)
    requires Ordered(t) && At(t, i, start)
    requires GaugeAt(t, i).Open(start)
    requires forall q :: i <= q < |t| ==> t[q].at <= start + 2 * STALL_WINDOW
    requires TakenIn(t, i, |t|) < STALL_MIN_BYTES
    requires NeverCleared(t, i, |t|, start + 2 * STALL_WINDOW)
    ensures exists p: nat, now: Instant :: At(t, p, now) && i <= p && start <= now <= start + 2 * STALL_WINDOW
                             && GaugeAt(t, p).Preemptible(now)
  {
    var w := GaugeAt(t, i).window.value;
    var k := WindowMeaning(t, i, start);
    var end := start + 2 * STALL_WINDOW;
    var r := RestartsAtMostOnce(t, i, |t|, w);
    OpenMeaning(t, |t|, end);
    var p, now := |t|, end;
    assert t[k].at <= t[i - 1].at;
    if !Carried(t, i, |t|, w) {
      if t[r].at > start + STALL_WINDOW {
        p, now := r, t[r].at;
        OpenMeaning(t, r, now);
      }
    }
    assert At(t, p, now) && GaugeAt(t, p).Preemptible(now);
  }

  /**
    One window is not enough on its own: at the end of one, such a holder is preemptible exactly when the
    bytes its window had already counted, with those it took since, stay under the floor.
  */
  lemma OneWindowCatchesExactly(t: seq<Write>, i: nat, start: Instant)
    requires Ordered(t) && At(t, i, start)
    requires GaugeAt(t, i).Open(start)
    requires forall q :: i <= q < |t| ==> start < t[q].at <= start + STALL_WINDOW
    requires TakenIn(t, i, |t|) < STALL_MIN_BYTES
    requires NeverCleared(t, i, |t|, start + STALL_WINDOW)
    ensures GaugeAt(t, |t|).Preemptible(start + STALL_WINDOW)
            <==> GaugeAt(t, i).window.value.taken + TakenIn(t, i, |t|) < STALL_MIN_BYTES
  {
    var w, end := GaugeAt(t, i).window.value, start + STALL_WINDOW;
    var g := GaugeAt(t, |t|);
    assert w.start <= start && g.Open(end) && g.Bounded() by {
      var k := WindowMeaning(t, i, start);
      assert t[k].at <= t[i - 1].at;
      OpenMeaning(t, |t|, end);
      WriterMeaning(t, |t|);
      var _ := RestartsAtMostOnce(t, i, |t|, w);
    }
    var r := RestartsAtMostOnce(t, i, |t|, w);
    if !Carried(t, i, |t|, w) {
      TakenInGrows(t, i, r + 1, |t|);
      assert start < t[r].at;
    }
  }

  lemma {:induction false} TakenInGrows(t: seq<Write>, from: nat, a: nat, b: nat)
    requires a <= b <= |t|
    ensures TakenIn(t, from, a) <= TakenIn(t, from, b)
  {
    if a < b {
      TakenInGrows(t, from, a, b - 1);
    }
  }

  /** A holder that restarts its window late: one byte in 90 seconds, and still not preemptible after them. */
  lemma OneWindowIsNotEnough()
    ensures exists t: seq<Write>, start: Instant ::
      && Ordered(t) && At(t, 3, start) && |t| == 5
      && GaugeAt(t, 3).Open(start)
      && TakenIn(t, 3, 5) == 1
      && t[4].at < start + STALL_WINDOW
      && !GaugeAt(t, 5).Preemptible(start + STALL_WINDOW)
  {
    var t := [Write(0, Pending), Write(1, Taken(STALL_MIN_BYTES - 1)), Write(2, Pending),
              Write(80 * SECOND, Taken(1)), Write(80 * SECOND, Pending)];
    assert GaugeAt(t, 1) == Gauge(Refused, Some(Window(0, 0)));
    assert GaugeAt(t, 2) == Gauge(ClearSince(1), Some(Window(0, STALL_MIN_BYTES - 1)));
    assert GaugeAt(t, 3) == Gauge(Refused, Some(Window(0, STALL_MIN_BYTES - 1)));
    assert GaugeAt(t, 4) == Gauge(ClearSince(80 * SECOND), Some(Window(80 * SECOND, 0)));
    assert GaugeAt(t, 5) == Gauge(Refused, Some(Window(80 * SECOND, 0)));
    assert TakenIn(t, 3, 3) == 0 && TakenIn(t, 3, 4) == 1;
    assert At(t, 3, 2);
  }

  /** A refused holder that takes nothing more is preemptible exactly from STALL_WINDOW after its window opened. */
  lemma {:induction false} ASilentHolderFallsOnTime(t: seq<Write>, i: nat, p: nat, now: Instant)
    requires i <= p <= |t|
    requires GaugeAt(t, i).writer.Refused? && GaugeAt(t, i).window.Some?
    requires forall q :: i <= q < p ==> !t[q].polled.Taken?
    ensures GaugeAt(t, p) == GaugeAt(t, i)
    ensures GaugeAt(t, p).Preemptible(now) <==> now >= GaugeAt(t, i).window.value.start + STALL_WINDOW
  {
    if i < p {
      ASilentHolderFallsOnTime(t, i, p - 1, now);
    }
  }

  function RestartCount(t: seq<Write>, i: nat): nat
    requires i <= |t|
  {
    if i == 0 then 0
    else
      var g, e := GaugeAt(t, i - 1), t[i - 1].polled;
      RestartCount(t, i - 1)
      + (if e.Taken? && g.window.Some? && g.window.value.taken + e.bytes >= STALL_MIN_BYTES then 1 else 0)
  }

  /** Every restart was paid for: restarts times the floor, and what the window has counted since, were taken. */
  lemma {:induction false} RestartsArePaidFor(t: seq<Write>, i: nat)
    requires i <= |t|
    ensures RestartCount(t, i) * STALL_MIN_BYTES
            + (if GaugeAt(t, i).window.Some? then GaugeAt(t, i).window.value.taken else 0) <= TakenIn(t, 0, i)
  {
    if i > 0 {
      RestartsArePaidFor(t, i - 1);
    }
  }

  /** The gauge after `i` writes does not depend on the writes after them. */
  lemma {:induction false} GaugeAtPrefix(t: seq<Write>, u: seq<Write>, i: nat)
    requires i <= |t| && t <= u
    ensures GaugeAt(u, i) == GaugeAt(t, i)
  {
    if i > 0 {
      GaugeAtPrefix(t, u, i - 1);
    }
  }
}
