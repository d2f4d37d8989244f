/**
  The `stdin:` seat (src/raw_stream/seat.rs): one reader that can never be re-opened, lent to one peer at a
  time. `Seat` is the code, one lock section a method; the functions beside it say what each section does to
  the whole world of guards and hand-off channels, and the theorems are about every interleaving of them.
*/
module Seats {
  import opened Wrappers
  import opened Metering
  import opened Octets

  type NodeId = nat

  /** The one reader of the source, which has given out the first `at` bytes of the input. */
  datatype Reader = Reader(at: nat)

  datatype Lent = Reading(reader: Reader) | Ended

  /**
    A `SeatReader` and the link beside it. `lent` is what it reads from; `inHand` is what its read or its
    drop has taken out of it and is about to give back, which waits on the seat's lock. `delivered` is
    whether a peer holds it yet, or it still sits in a hand-off channel. `writes` is every write polled
    toward its peer, and `gauge` the meter they feed.
  */
  datatype Guard = Guard(peer: NodeId, lent: Option<Reader>, inHand: Option<Lent>, delivered: bool,
                         preempted: bool, gauge: Gauge, writes: seq<Write>)
  {
    predicate Idle() { lent.None? && inHand.None? }

    predicate HasReader() { lent.Some? || (inHand.Some? && inHand.value.Reading?) }

    function TheReader(): Reader
      requires HasReader()
    {
      if lent.Some? then lent.value else inHand.value.reader
    }

    /** The guard as its drop leaves it: what it had is in hand, on the way back to the seat. */
    function Dropped(): Guard
      requires inHand.None?
    {
      if lent.Some? then this.(lent := None, inHand := Some(Reading(lent.value))) else this
    }
  }

  datatype Holder = Holder(peer: NodeId, guard: nat)

  datatype Cell = Armed(reader: Reader) | Held(holder: Holder) | Handing(dialer: NodeId, grant: nat) | Spent

  datatype Grant = Seated(guard: nat) | SpentGrant

  /** A hand-off's oneshot channel. It delivers once, or gives the value back once its receiver has hung up. */
  datatype Channel = Waiting(dialer: NodeId) | Sent(grant: Grant) | Received | HungUp

  datatype Refusal = HeldByAnother | InputSpent

  datatype Take = TookSeat(guard: nat) | TookPlace(grant: nat) | TakeRefused(refusal: Refusal)

  datatype ReadBy = ReadBy(guard: nat, bytes: seq<byte>)

  /** The seat, every guard and channel it has ever made, and the history the theorems speak of. */
  datatype World = World(cell: Cell, guards: seq<Guard>, channels: seq<Channel>,
                         log: seq<ReadBy>, ended: bool, strays: nat, clock: Instant)

  predicate Formed(w: World) {
    && (w.cell.Held? ==> w.cell.holder.guard < |w.guards|)
    && (w.cell.Handing? ==> w.cell.grant < |w.channels|)
    && (forall c :: 0 <= c < |w.channels| && w.channels[c].Sent? && w.channels[c].grant.Seated?
          ==> w.channels[c].grant.guard < |w.guards|)
  }

  function Start(): World {
    World(Armed(Reader(0)), [], [], [], false, 0, 0)
  }

  function NewGuard(peer: NodeId, reader: Reader, delivered: bool): Guard {
    Guard(peer, Some(reader), None, delivered, false, FRESH, [])
  }

  function Dial(w: World, dialer: NodeId, now: Instant): (r: (World, Take))
    requires Formed(w)
    ensures Formed(r.0)
  {
    match w.cell
    case Armed(reader) =>
      (w.(cell := Held(Holder(dialer, |w.guards|)), guards := w.guards + [NewGuard(dialer, reader, true)]),
       TookSeat(|w.guards|))
    case Spent => (w, TakeRefused(InputSpent))
    case Handing(_, _) => (w, TakeRefused(HeldByAnother))
    case Held(holder) =>
      var guard := w.guards[holder.guard];
      if holder.peer == dialer || !guard.gauge.Preemptible(now) then (w, TakeRefused(HeldByAnother))
      else
        (w.(cell := Handing(dialer, |w.channels|), channels := w.channels + [Waiting(dialer)],
            guards := w.guards[holder.guard := guard.(preempted := true)]),
         TookPlace(|w.channels|))
  }

  function GiveBack(w: World, g: nat): (r: World)
    requires Formed(w) && g < |w.guards| && w.guards[g].inHand.Some?
    ensures Formed(r)
  {
    var lent := w.guards[g].inHand.value;
    var v := w.(guards := w.guards[g := w.guards[g].(inHand := None)]);
    match w.cell
    case Armed(_) => v.(strays := v.strays + 1)
    case Spent => v.(strays := v.strays + 1)
    case Held(_) => v.(cell := if lent.Ended? then Spent else Armed(lent.reader))
    case Handing(dialer, grant) =>
      var listening := v.channels[grant].Waiting?;
      if lent.Ended? then
        v.(cell := Spent,
           channels := if listening then v.channels[grant := Sent(SpentGrant)] else v.channels)
      else if listening then
        v.(cell := Held(Holder(dialer, |v.guards|)),
           guards := v.guards + [NewGuard(dialer, lent.reader, false)],
           channels := v.channels[grant := Sent(Seated(|v.guards|))])
      else
        v.(cell := Armed(lent.reader),
           guards := v.guards + [NewGuard(dialer, lent.reader, false).(lent := None)])
  }

  /**
    The seat itself, with the guards and channels its lock sections touch. `input` is what its source will ever give.
    Each section, and each lock-free move between two, is a method that may run only where the machine allows its
    step and does exactly that step; `trace` keeps the steps in the order they were taken.
  */
  class Seat {
    const input: seq<byte>
    var cell: Cell
    var guards: seq<Guard>
    var channels: seq<Channel>
    ghost var log: seq<ReadBy>
    ghost var ended: bool
    var strays: nat
    ghost var clock: Instant
    ghost var trace: seq<Step>

    ghost function State(): World
      reads this
    {
      World(cell, guards, channels, log, ended, strays, clock)
    }

    ghost predicate Valid()
      reads this
    {
      Formed(State()) && State() == Run(Start(), input, trace)
    }

    constructor (input: seq<byte>)
      ensures Valid() && State() == Start() && this.input == input && trace == []
    {
      this.input := input;
      cell, guards, channels := Armed(Reader(0)), [], [];
      log, ended, strays, clock, trace := [], false, 0, 0, [];
    }

    /** Seat `peer` with `reader`: a fresh meter with no window open, and the guard that gives it back. */
    method SeatPeer(peer: NodeId, reader: Reader, delivered: bool) returns (holder: Holder)
      modifies this`guards
      ensures guards == old(guards) + [NewGuard(peer, reader, delivered)]
      ensures holder == Holder(peer, |old(guards)|)
    {
      holder := Holder(peer, |guards|);
      guards := guards + [Guard(peer, Some(reader), None, delivered, false, FRESH, [])];
    }

    /** Decide one dial, under the seat's lock. */
    method TakeSeat(dialer: NodeId, now: Instant) returns (take: Take)
      requires Valid() && Enabled(State(), input, Dialed(dialer, now))
      modifies this
      ensures Valid() && State() == Next(old(State()), input, Dialed(dialer, now))
      ensures trace == old(trace) + [Dialed(dialer, now)] && take == Dial(old(State()), dialer, now).1
    {
      RunOne(input, trace, Dialed(dialer, now));
      take := Decide(dialer, now);
      clock, trace := now, trace + [Dialed(dialer, now)];
    }

    method Decide(dialer: NodeId, now: Instant) returns (take: Take)
      requires Formed(State())
      modifies this`cell, this`guards, this`channels
      ensures (State(), take) == Dial(old(State()), dialer, now)
    {
      var was := cell;
      cell := Spent;
      match was
      case Armed(reader) =>
        var holder := SeatPeer(dialer, reader, true);
        cell := Held(holder);
        take := TookSeat(holder.guard);
      case Spent =>
        take := TakeRefused(InputSpent);
      case Handing(_, _) =>
        cell := was;
        take := TakeRefused(HeldByAnother);
      case Held(holder) =>
        if holder.peer == dialer || !guards[holder.guard].gauge.Preemptible(now) {
          cell := Held(holder);
          take := TakeRefused(HeldByAnother);
        } else {
          var grant := |channels|;
          channels := channels + [Waiting(dialer)];
          guards := guards[holder.guard := guards[holder.guard].(preempted := true)];
          cell := Handing(dialer, grant);
          take := TookPlace(grant);
        }
    }

    /** Send `grant` down a channel, or get it back because the dialer hung up. */
    method Send(channel: nat, grant: Grant) returns (delivered: bool)
      requires channel < |channels|
      modifies this`channels
      ensures delivered == old(channels)[channel].Waiting?
      ensures channels == if delivered then old(channels)[channel := Sent(grant)] else old(channels)
    {
      delivered := channels[channel].Waiting?;
      if delivered {
        channels := channels[channel := Sent(grant)];
      }
    }

    /**
      Poll guard `g`'s reader. A ready read that filled nothing into a buffer with room, or an error, ends the
      input: the reader is dropped here, and the seat is told of it in the lock section that follows.
    */
    method PollReader(g: nat, read: PollRead) returns (bytes: seq<byte>)
      requires Valid() && Enabled(State(), input, Polled(g, read))
      modifies this
      ensures Valid() && State() == Next(old(State()), input, Polled(g, read))
      ensures trace == old(trace) + [Polled(g, read)]
      ensures read.AtEnd? ==> bytes == [] && guards[g].inHand == Some(Ended)
      ensures read.Filled? ==> log == old(log) + [ReadBy(g, bytes)] && |bytes| == read.n
    {
      RunOne(input, trace, Polled(g, read));
      trace := trace + [Polled(g, read)];
      match guards[g].lent.value
      case Reader(at) =>
        match read {
          case Filled(n) =>
            bytes := input[at..at + n];
            guards := guards[g := guards[g].(lent := Some(Reader(at + n)))];
            log := log + [ReadBy(g, bytes)];
          case AtEnd =>
            bytes := [];
            guards := guards[g := guards[g].(lent := None, inHand := Some(Ended))];
            ended := true;
        }
    }

    /** Drop guard `g`, however its splice ended, up to the lock: whatever it still reads from is in hand. */
    method DropReader(g: nat)
      requires Valid() && Enabled(State(), input, Dropped(g))
      modifies this`guards, this`trace
      ensures Valid() && State() == Next(old(State()), input, Dropped(g)) && trace == old(trace) + [Dropped(g)]
      ensures |guards| == |old(guards)| && (guards[g].inHand.Some? <==> old(guards)[g].lent.Some?)
    {
      RunOne(input, trace, Dropped(g));
      trace := trace + [Dropped(g)];
      var lent := guards[g].lent;
      if lent.Some? {
        guards := guards[g := guards[g].(lent := None)];
        guards := guards[g := guards[g].(inHand := Some(Reading(lent.value)))];
      }
    }

    /** One write toward guard `g`'s peer, as its meter sees it. */
    method RecordWrite(g: nat, write: Write)
      requires Valid() && Enabled(State(), input, Wrote(g, write))
      modifies this`guards, this`clock, this`trace
      ensures Valid() && State() == Next(old(State()), input, Wrote(g, write))
      ensures trace == old(trace) + [Wrote(g, write)]
    {
      RunOne(input, trace, Wrote(g, write));
      var gauge := guards[g].gauge.Record(write.polled, write.at);
      guards := guards[g := guards[g].(gauge := gauge, writes := guards[g].writes + [write])];
      clock, trace := write.at, trace + [Wrote(g, write)];
    }

    /** The waiting dialer takes what its channel was sent: its guard, or that the input ended. */
    method TakeGrant(c: nat) returns (grant: Grant)
      requires Valid() && Enabled(State(), input, GrantTaken(c))
      modifies this`guards, this`channels, this`trace
      ensures Valid() && State() == Next(old(State()), input, GrantTaken(c)) && trace == old(trace) + [GrantTaken(c)]
      ensures old(channels)[c] == Sent(grant)
    {
      RunOne(input, trace, GrantTaken(c));
      trace := trace + [GrantTaken(c)];
      grant := channels[c].grant;
      channels := channels[c := Received];
      if grant.Seated? {
        guards := guards[grant.guard := guards[grant.guard].(delivered := true)];
      }
    }

    /** The dialer gives up. A guard already sent to it is dropped with the channel. */
    method GiveUp(c: nat)
      requires Valid() && Enabled(State(), input, GaveUp(c))
      modifies this`guards, this`channels, this`trace
      ensures Valid() && State() == Next(old(State()), input, GaveUp(c)) && trace == old(trace) + [GaveUp(c)]
    {
      RunOne(input, trace, GaveUp(c));
      trace := trace + [GaveUp(c)];
      var channel := channels[c];
      channels := channels[c := HungUp];
      if channel.Sent? && channel.grant.Seated? {
        var lent := guards[channel.grant.guard].lent;
        if lent.Some? {
          guards := guards[channel.grant.guard :=
                             guards[channel.grant.guard].(lent := None, inHand := Some(Reading(lent.value)))];
        }
      }
    }

    /** Receive what guard `g` has in hand back from it, under the seat's lock. */
    method PutBack(g: nat)
      requires Valid() && Enabled(State(), input, Returned(g))
      modifies this
      ensures Valid() && State() == GiveBack(old(State()), g) == Next(old(State()), input, Returned(g))
      ensures trace == old(trace) + [Returned(g)]
    {
      RunOne(input, trace, Returned(g));
      Receive(g);
      trace := trace + [Returned(g)];
    }

    method Receive(g: nat)
      requires Formed(State()) && g < |guards| && guards[g].inHand.Some?
      modifies this`cell, this`guards, this`channels, this`strays
      ensures State() == GiveBack(old(State()), g)
    {
      var lent := guards[g].inHand.value;
      guards := guards[g := guards[g].(inHand := None)];
      var was := cell;
      cell := Spent;
      var handoff: Option<(NodeId, nat)>;
      match was {
        case Held(_) => handoff := None;
        case Handing(dialer, grant) => handoff := Some((dialer, grant));
        case Armed(_) | Spent =>
          cell := was;
          strays := strays + 1;
          return;
      }
      if lent.Ended? {
        if handoff.Some? {
          var _ := Send(handoff.value.1, SpentGrant);
        }
        return;
      }
      if handoff.None? {
        cell := Armed(lent.reader);
        return;
      }
      var holder := SeatPeer(handoff.value.0, lent.reader, false);
      cell := Held(holder);
      var delivered := Send(handoff.value.1, Seated(holder.guard));
      if !delivered {
        // The undelivered guard is emptied first, so its own drop does not re-enter this lock.
        var undelivered := guards[holder.guard];
        guards := guards[holder.guard := undelivered.(lent := None)];
        cell := Armed(undelivered.lent.value);
      }
    }

    // ----- what is made of them -----

    /** A whole read: one that reaches the end of input spends the seat at once, and no other gives anything back. */
    method Read(g: nat, read: PollRead) returns (bytes: seq<byte>)
      requires Valid() && Enabled(State(), input, Polled(g, read))
      modifies this
      ensures Valid() && trace == old(trace) + [Polled(g, read)] + if read.AtEnd? then [Returned(g)] else []
      ensures read.AtEnd? ==> bytes == [] && cell.Spent? && log == old(log)
      ensures read.Filled? ==> cell == old(cell) && log == old(log) + [ReadBy(g, bytes)] && |bytes| == read.n
    {
      AHolderHoldsTheSeat(input, trace, g);
      bytes := PollReader(g, read);
      if read.AtEnd? {
        PutBack(g);
      }
    }

    /** A whole drop: what the guard still read from is back with the seat, and an emptied guard gives nothing back. */
    method Drop(g: nat)
      requires Valid() && Enabled(State(), input, Dropped(g))
      modifies this
      ensures Valid()
      ensures trace == old(trace) + [Dropped(g)] + if old(guards)[g].lent.Some? then [Returned(g)] else []
      ensures |old(guards)| <= |guards| && guards[g].Idle()
    {
      DropReader(g);
      if guards[g].inHand.Some? {
        PutBack(g);
      }
    }
  }

  // ----- every interleaving ----------------------------------------------------------------------------

  datatype PollRead = Filled(n: nat) | AtEnd

  /**
    One step of the world. `Polled` and `Dropped` are the two lock-free halves of a guard's read and drop;
    `Returned` is the lock section either one then waits for. `Wrote` is a write toward the guard's peer.
  */
  datatype Step =
    | Dialed(dialer: NodeId, now: Instant)
    | Polled(guard: nat, read: PollRead)
    | Dropped(guard: nat)
    | Returned(guard: nat)
    | Wrote(guard: nat, write: Write)
    | GrantTaken(channel: nat)
    | GaveUp(channel: nat)

  predicate Enabled(w: World, input: seq<byte>, s: Step) {
    match s
    case Dialed(_, now) => now >= w.clock
    case Polled(g, read) =>
      && g < |w.guards| && w.guards[g].delivered && w.guards[g].lent.Some?
      && (read.Filled? ==> w.guards[g].lent.value.at + read.n <= |input|)
    case Dropped(g) => g < |w.guards| && w.guards[g].delivered && w.guards[g].inHand.None?
    case Returned(g) => g < |w.guards| && w.guards[g].inHand.Some?
    case Wrote(g, write) => g < |w.guards| && w.guards[g].delivered && write.at >= w.clock
    case GrantTaken(c) => c < |w.channels| && w.channels[c].Sent?
    case GaveUp(c) =>
      c < |w.channels| && !w.channels[c].Received?
      && (w.channels[c].Sent? && w.channels[c].grant.Seated? && w.channels[c].grant.guard < |w.guards|
          ==> w.guards[w.channels[c].grant.guard].inHand.None?)
  }

  function Next(w: World, input: seq<byte>, s: Step): (r: World)
    requires Formed(w)
    ensures Formed(r)
  {
    if !Enabled(w, input, s) then w
    else match s
      case Dialed(dialer, now) => Dial(w, dialer, now).0.(clock := now)
      case Polled(g, Filled(n)) =>
        var guard := w.guards[g];
        var from := guard.lent.value.at;
        w.(guards := w.guards[g := guard.(lent := Some(Reader(from + n)))],
           log := w.log + [ReadBy(g, input[from..from + n])])
      case Polled(g, AtEnd) =>
        w.(guards := w.guards[g := w.guards[g].(lent := None, inHand := Some(Ended))], ended := true)
      case Dropped(g) => w.(guards := w.guards[g := w.guards[g].Dropped()])
      case Returned(g) => GiveBack(w, g)
      case Wrote(g, write) =>
        var guard := w.guards[g];
        w.(guards := w.guards[g := guard.(gauge := guard.gauge.Record(write.polled, write.at),
                                          writes := guard.writes + [write])],
           clock := write.at)
      case GrantTaken(c) =>
        var v := w.(channels := w.channels[c := Received]);
        if w.channels[c].grant.Seated? then
          var g := w.channels[c].grant.guard;
          v.(guards := w.guards[g := w.guards[g].(delivered := true)])
        else v
      case GaveUp(c) =>
        var v := w.(channels := w.channels[c := HungUp]);
        if w.channels[c].Sent? && w.channels[c].grant.Seated? then
          var g := w.channels[c].grant.guard;
          v.(guards := w.guards[g := w.guards[g].Dropped()])
        else v
  }

  function Run(w: World, input: seq<byte>, steps: seq<Step>): (r: World)
    requires Formed(w)
    ensures Formed(r)
  {
    if steps == [] then w
    else Next(Run(w, input, steps[..|steps| - 1]), input, steps[|steps| - 1])
  }

  lemma RunOne(input: seq<byte>, steps: seq<Step>, s: Step)
    ensures Run(Start(), input, steps + [s]) == Next(Run(Start(), input, steps), input, s)
  {
    assert (steps + [s])[..|steps|] == steps;
  }

  function Delivered(log: seq<ReadBy>): seq<byte> {
    if log == [] then [] else Delivered(log[..|log| - 1]) + log[|log| - 1].bytes
  }

  // ----- the invariant ---------------------------------------------------------------------------------

  /** Guard `g` is the only one that holds anything. */
  ghost predicate Only(guards: seq<Guard>, g: nat) {
    g < |guards| && !guards[g].Idle() && forall i :: 0 <= i < |guards| && i != g ==> guards[i].Idle()
  }

  ghost predicate GuardInv(guard: Guard, given: nat, ended: bool, clock: Instant) {
    && (guard.lent.None? || guard.inHand.None?)
    && Ordered(guard.writes)
    && (guard.writes != [] ==> guard.delivered && guard.writes[|guard.writes| - 1].at <= clock)
    && guard.gauge == GaugeAt(guard.writes, |guard.writes|)
    && (guard.HasReader() ==> !ended && guard.TheReader().at == given)
    && (!guard.Idle() && !guard.HasReader() ==> ended)
  }

  ghost predicate CellInv(w: World)
    requires Formed(w)
  {
    match w.cell
    case Armed(reader) =>
      && (forall i :: 0 <= i < |w.guards| ==> w.guards[i].Idle())
      && reader.at == |Delivered(w.log)| && !w.ended
    case Held(holder) => Only(w.guards, holder.guard) && w.guards[holder.guard].peer == holder.peer
    case Handing(dialer, grant) =>
      && (exists g: nat :: Only(w.guards, g) && w.guards[g].delivered)
      && (w.channels[grant] == Waiting(dialer) || w.channels[grant].HungUp?)
    case Spent => w.ended && forall i :: 0 <= i < |w.guards| ==> w.guards[i].Idle()
  }

  /** The guard sits in a hand-off channel nobody has taken it from. */
  ghost predicate Undelivered(channels: seq<Channel>, g: nat) {
    exists c: nat :: c < |channels| && channels[c] == Sent(Seated(g))
  }

  /** A guard that still reads is with its peer or in a channel, so somebody can always let go of it. */
  ghost predicate NoneAdrift(w: World) {
    forall g: nat :: Adrift(w.guards, g) ==> Undelivered(w.channels, g)
  }

  ghost predicate Adrift(guards: seq<Guard>, g: nat) {
    g < |guards| && guards[g].lent.Some? && !guards[g].delivered
  }

  /** One channel may change if it held no guard that is still adrift, or now holds it. */
  lemma StillNoneAdrift(w: World, v: World, c: nat)
    requires NoneAdrift(w) && c < |w.channels| && |v.channels| == |w.channels|
    requires v.channels == w.channels[c := v.channels[c]]
    requires forall g: nat :: Adrift(v.guards, g) ==>
               (Adrift(w.guards, g) && w.channels[c] != Sent(Seated(g))) || v.channels[c] == Sent(Seated(g))
    ensures NoneAdrift(v)
  {
    forall g: nat | Adrift(v.guards, g) ensures Undelivered(v.channels, g) {
      if v.channels[c] != Sent(Seated(g)) {
        var d: nat :| d < |w.channels| && w.channels[d] == Sent(Seated(g));
        assert v.channels[d] == w.channels[d];
      }
    }
  }

  /** A channel waits only while its hand-off is on, and a guard sits only in one, which the seat's holder is. */
  ghost predicate ChannelsInv(w: World)
    requires Formed(w)
  {
    && (forall c :: 0 <= c < |w.channels| && w.channels[c].Waiting?
          ==> w.cell == Handing(w.channels[c].dialer, c))
    && (forall c :: 0 <= c < |w.channels| && w.channels[c].Sent? && w.channels[c].grant.Seated? ==>
          var g := w.channels[c].grant.guard;
          w.cell.Held? && w.cell.holder.guard == g && w.guards[g].lent.Some? && !w.guards[g].delivered)
    && (forall c, d :: 0 <= c < d < |w.channels| && w.channels[c].Sent? && w.channels[d].Sent? ==>
          w.channels[c] != w.channels[d] || w.channels[c].grant.SpentGrant?)
  }

  ghost predicate LogInv(log: seq<ReadBy>, guards: seq<Guard>, input: seq<byte>) {
    && Delivered(log) <= input
    && (forall i :: 0 <= i < |log| ==> log[i].guard < |guards|)
    && (forall i, j :: 0 <= i <= j < |log| ==> log[i].guard <= log[j].guard)
    && (forall i, g :: 0 <= i < |log| && 0 <= g < |guards| && !guards[g].Idle() ==> log[i].guard <= g)
  }

  ghost predicate GuardsInv(w: World) {
    forall g :: 0 <= g < |w.guards| ==> GuardInv(w.guards[g], |Delivered(w.log)|, w.ended, w.clock)
  }

  ghost predicate Inv(w: World, input: seq<byte>) {
    Formed(w) && w.strays == 0 && CellInv(w) && LogInv(w.log, w.guards, input) && GuardsInv(w) && ChannelsInv(w)
    && NoneAdrift(w)
  }

  /**
    Most steps change one guard and neither move the cell nor add a guard. Such a step keeps the invariant
    if that guard still fits it and is idle exactly when it was.
  */
  lemma PatchKeepsInv(w: World, v: World, input: seq<byte>, g: nat)
    requires Inv(w, input) && g < |w.guards| == |v.guards|
    requires v == w.(guards := w.guards[g := v.guards[g]], channels := v.channels, clock := v.clock)
    requires v.clock >= w.clock
    requires v.guards[g].Idle() == w.guards[g].Idle() && v.guards[g].peer == w.guards[g].peer
    requires w.guards[g].delivered ==> v.guards[g].delivered
    requires GuardInv(v.guards[g], |Delivered(w.log)|, w.ended, v.clock)
    requires Formed(v) && ChannelsInv(v) && NoneAdrift(v)
    requires w.cell.Handing? && v.channels[w.cell.grant] != w.channels[w.cell.grant]
             ==> v.channels[w.cell.grant].HungUp?
    ensures Inv(v, input)
  {
    if w.cell.Handing? {
      var h: nat :| Only(w.guards, h) && w.guards[h].delivered;
      assert Only(v.guards, h);
    }
  }

  lemma DialKeepsInv(w: World, input: seq<byte>, dialer: NodeId, now: Instant)
    requires Inv(w, input)
    ensures Inv(Dial(w, dialer, now).0, input)
  {
    match Dial(w, dialer, now).1
    case TookSeat(_) => SeatingKeepsInv(w, input, dialer, now);
    case TookPlace(_) => DisplacingKeepsInv(w, input, dialer, now);
    case TakeRefused(_) =>
  }

  lemma SeatingKeepsInv(w: World, input: seq<byte>, dialer: NodeId, now: Instant)
    requires Inv(w, input) && Dial(w, dialer, now).1.TookSeat?
    ensures Inv(Dial(w, dialer, now).0, input)
  {
    var v := Dial(w, dialer, now).0;
    assert Only(v.guards, |w.guards|);
    assert v.log == w.log;
  }

  /** An undelivered guard has written nothing, so it is never displaced: only one its peer holds can be. */
  lemma DisplacingKeepsInv(w: World, input: seq<byte>, dialer: NodeId, now: Instant)
    requires Inv(w, input) && Dial(w, dialer, now).1.TookPlace?
    ensures Inv(Dial(w, dialer, now).0, input)
  {
    var v, g := Dial(w, dialer, now).0, w.cell.holder.guard;
    assert GuardInv(w.guards[g], |Delivered(w.log)|, w.ended, w.clock);
    assert w.guards[g].delivered;
    assert Only(v.guards, g);
    assert CellInv(v);
    assert v.log == w.log;
    assert LogInv(v.log, v.guards, input);
    assert GuardsInv(v);
    assert ChannelsInv(v);
  }

  lemma TickKeepsInv(w: World, input: seq<byte>, now: Instant)
    requires Inv(w, input) && now >= w.clock
    ensures Inv(w.(clock := now), input)
  {
  }

  /** What a read adds to the log is the next stretch of the input. */
  lemma OneReadOn(log: seq<ReadBy>, input: seq<byte>, g: nat, from: nat, n: nat)
    requires Delivered(log) <= input && from == |Delivered(log)| && from + n <= |input|
    ensures Delivered(log + [ReadBy(g, input[from..from + n])]) == input[..from + n]
  {
    var more := log + [ReadBy(g, input[from..from + n])];
    assert more[..|more| - 1] == log;
    assert input[..from] + input[from..from + n] == input[..from + n];
  }

  lemma ReadKeepsInv(w: World, input: seq<byte>, g: nat, n: nat)
    requires Inv(w, input) && Enabled(w, input, Polled(g, Filled(n)))
    ensures Inv(Next(w, input, Polled(g, Filled(n))), input)
  {
    var v := Next(w, input, Polled(g, Filled(n)));
    assert GuardInv(w.guards[g], |Delivered(w.log)|, w.ended, w.clock);
    OneReadOn(w.log, input, g, w.guards[g].lent.value.at, n);
    hide GaugeAt, Ordered, Delivered;
    assert Only(w.guards, g) && Only(v.guards, g);
  }

  lemma EndKeepsInv(w: World, input: seq<byte>, g: nat)
    requires Inv(w, input) && Enabled(w, input, Polled(g, AtEnd))
    ensures Inv(Next(w, input, Polled(g, AtEnd)), input)
  {
    var v := Next(w, input, Polled(g, AtEnd));
    assert Only(w.guards, g) && Only(v.guards, g);
  }

  lemma WriteKeepsGuard(was: Guard, write: Write, guard: Guard, given: nat, ended: bool, clock: Instant)
    requires GuardInv(was, given, ended, clock) && was.delivered && write.at >= clock
    requires guard == was.(gauge := was.gauge.Record(write.polled, write.at), writes := was.writes + [write])
    ensures GuardInv(guard, given, ended, write.at)
  {
    GaugeAtPrefix(was.writes, guard.writes, |was.writes|);
  }

  lemma GiveBackKeepsInv(w: World, input: seq<byte>, g: nat)
    requires Inv(w, input) && Enabled(w, input, Returned(g))
    ensures Inv(GiveBack(w, g), input)
  {
    hide GaugeAt, Ordered, GiveBack;
    assert Only(w.guards, g);
    if w.guards[g].inHand.value.Ended? {
      EndBackKeepsInv(w, input, g);
    } else if w.cell.Held? {
      HeldBackKeepsInv(w, input, g);
    } else if w.channels[w.cell.grant].Waiting? {
      HandOnKeepsInv(w, input, g);
    } else {
      RearmKeepsInv(w, input, g);
    }
  }

  lemma EndBackKeepsInv(w: World, input: seq<byte>, g: nat)
    requires Inv(w, input) && Enabled(w, input, Returned(g)) && Only(w.guards, g) && w.guards[g].inHand == Some(Ended)
    ensures Inv(GiveBack(w, g), input)
  {
    hide GaugeAt, Ordered;
    assert GiveBack(w, g).log == w.log;
  }

  lemma HeldBackKeepsInv(w: World, input: seq<byte>, g: nat)
    requires Inv(w, input) && Enabled(w, input, Returned(g)) && Only(w.guards, g)
    requires w.cell.Held? && w.guards[g].inHand.value.Reading?
    ensures Inv(GiveBack(w, g), input)
  {
    hide GaugeAt, Ordered;
    assert GiveBack(w, g).log == w.log;
  }

  lemma HandOnKeepsInv(w: World, input: seq<byte>, g: nat)
    requires Inv(w, input) && Enabled(w, input, Returned(g)) && Only(w.guards, g)
    requires w.cell.Handing? && w.guards[g].inHand.value.Reading? && w.channels[w.cell.grant].Waiting?
    ensures Inv(GiveBack(w, g), input)
  {
    var v, n := GiveBack(w, g), |w.guards|;
    assert v.log == w.log && v.guards[..n] == w.guards[g := v.guards[g]];
    assert Only(v.guards, n);
    assert GuardInv(v.guards[n], |Delivered(v.log)|, v.ended, v.clock);
    assert GuardsInv(v);
    assert ChannelsInv(v);
    StillNoneAdrift(w, v, w.cell.grant);
  }

  lemma RearmKeepsInv(w: World, input: seq<byte>, g: nat)
    requires Inv(w, input) && Enabled(w, input, Returned(g)) && Only(w.guards, g)
    requires w.cell.Handing? && w.guards[g].inHand.value.Reading? && w.channels[w.cell.grant].HungUp?
    ensures Inv(GiveBack(w, g), input)
  {
    var v, n := GiveBack(w, g), |w.guards|;
    assert v.log == w.log && v.guards[..n] == w.guards[g := v.guards[g]];
    assert GuardInv(v.guards[n], |Delivered(v.log)|, v.ended, v.clock);
    assert GuardsInv(v);
  }

  lemma GaveUpKeepsInv(w: World, input: seq<byte>, c: nat)
    requires Inv(w, input) && Enabled(w, input, GaveUp(c))
    ensures Inv(Next(w, input, GaveUp(c)), input)
  {
    hide GaugeAt, Ordered, Delivered;
    var v := Next(w, input, GaveUp(c));
    StillNoneAdrift(w, v, c);
    if w.channels[c].Sent? && w.channels[c].grant.Seated? {
      var g := w.channels[c].grant.guard;
      assert v.guards[g] == w.guards[g].Dropped();
      assert ChannelsInv(v);
      PatchKeepsInv(w, v, input, g);
    }
  }

  lemma GrantTakenKeepsInv(w: World, input: seq<byte>, c: nat)
    requires Inv(w, input) && Enabled(w, input, GrantTaken(c))
    ensures Inv(Next(w, input, GrantTaken(c)), input)
  {
    hide GaugeAt, Ordered, Delivered;
    var v := Next(w, input, GrantTaken(c));
    StillNoneAdrift(w, v, c);
    if w.channels[c].grant.Seated? {
      PatchKeepsInv(w, v, input, w.channels[c].grant.guard);
    }
  }

  lemma WroteKeepsInv(w: World, input: seq<byte>, g: nat, write: Write)
    requires Inv(w, input) && Enabled(w, input, Wrote(g, write))
    ensures Inv(Next(w, input, Wrote(g, write)), input)
  {
    var v := Next(w, input, Wrote(g, write));
    WriteKeepsGuard(w.guards[g], write, v.guards[g], |Delivered(w.log)|, w.ended, w.clock);
    PatchKeepsInv(w, v, input, g);
  }

  lemma DroppedKeepsInv(w: World, input: seq<byte>, g: nat)
    requires Inv(w, input) && Enabled(w, input, Dropped(g))
    ensures Inv(Next(w, input, Dropped(g)), input)
  {
    PatchKeepsInv(w, Next(w, input, Dropped(g)), input, g);
  }

  lemma DialedKeepsInv(w: World, input: seq<byte>, dialer: NodeId, now: Instant)
    requires Inv(w, input) && Enabled(w, input, Dialed(dialer, now))
    ensures Inv(Next(w, input, Dialed(dialer, now)), input)
  {
    DialKeepsInv(w, input, dialer, now);
    TickKeepsInv(Dial(w, dialer, now).0, input, now);
  }

  lemma NextKeepsInv(w: World, input: seq<byte>, s: Step)
    requires Inv(w, input)
    ensures Inv(Next(w, input, s), input)
  {
    hide Inv, Dial, GiveBack;
    if Enabled(w, input, s) {
      match s
      case Dialed(dialer, now) => DialedKeepsInv(w, input, dialer, now);
      case Polled(g, Filled(n)) => ReadKeepsInv(w, input, g, n);
      case Polled(g, AtEnd) => EndKeepsInv(w, input, g);
      case Dropped(g) => DroppedKeepsInv(w, input, g);
      case Returned(g) => GiveBackKeepsInv(w, input, g);
      case Wrote(g, write) => WroteKeepsInv(w, input, g, write);
      case GrantTaken(c) => GrantTakenKeepsInv(w, input, c);
      case GaveUp(c) => GaveUpKeepsInv(w, input, c);
    }
  }

  // ----- the theorems ----------------------------------------------------------------------------------

  lemma {:induction false} RunKeepsInv(w: World, input: seq<byte>, steps: seq<Step>)
    requires Inv(w, input)
    ensures Inv(Run(w, input, steps), input)
  {
    if steps != [] {
      RunKeepsInv(w, input, steps[..|steps| - 1]);
      NextKeepsInv(Run(w, input, steps[..|steps| - 1]), input, steps[|steps| - 1]);
    }
  }

  /** While a guard can read, the seat is held or being handed on. */
  lemma AHolderHoldsTheSeat(input: seq<byte>, steps: seq<Step>, g: nat)
    requires g < |Run(Start(), input, steps).guards| && !Run(Start(), input, steps).guards[g].Idle()
    ensures Run(Start(), input, steps).cell.Held? || Run(Start(), input, steps).cell.Handing?
  {
    RunKeepsInv(Start(), input, steps);
  }

  datatype Place = TheSeat | TheGuard(guard: nat)

  /** Every place the reader, or a copy of it, could be read from. */
  ghost function Places(w: World): set<Place> {
    (if w.cell.Armed? then {TheSeat} else {})
    + (set g | 0 <= g < |w.guards| && w.guards[g].HasReader() :: TheGuard(g))
  }

  lemma PlacesByCell(w: World, input: seq<byte>)
    requires Inv(w, input)
    ensures !w.ended ==> exists p :: Places(w) == {p}
    ensures w.ended ==> Places(w) == {}
  {
    match w.cell
    case Armed(_) => assert Places(w) == {TheSeat};
    case Spent => assert Places(w) == {};
    case _ =>
      var g: nat :| Only(w.guards, g);
      assert Only(w.guards, g);
      if w.ended {
        assert Places(w) == {};
      } else {
        assert w.guards[g].HasReader();
        assert Places(w) == {TheGuard(g)};
      }
  }

  /**
    In every interleaving: until the input ends the reader is in exactly one place, and after that in none;
    no reader ever comes back to a seat nobody held; and the seat is spent only by the end of input.
  */
  lemma OneOwner(input: seq<byte>, steps: seq<Step>)
    ensures var w := Run(Start(), input, steps);
            && (!w.ended ==> exists p :: Places(w) == {p})
            && (w.ended ==> Places(w) == {})
            && w.strays == 0
            && (w.cell.Spent? ==> w.ended)
  {
    RunKeepsInv(Start(), input, steps);
    PlacesByCell(Run(Start(), input, steps), input);
  }

  /**
    What the holders read, end to end, is a prefix of the input: nothing is lost, repeated or reordered
    between them. A guard reads only before every guard seated after it, so each reads one unbroken stretch.
  */
  lemma HoldersReadInTurn(input: seq<byte>, steps: seq<Step>)
    ensures var log := Run(Start(), input, steps).log;
            && Delivered(log) <= input
            && (forall i, j :: 0 <= i <= j < |log| ==> log[i].guard <= log[j].guard)
  {
    RunKeepsInv(Start(), input, steps);
  }

  lemma SpentStaysSpent(w: World, input: seq<byte>, s: Step)
    requires Inv(w, input) && w.cell.Spent?
    ensures var v := Next(w, input, s);
            v.cell.Spent? && v.log == w.log && |v.guards| == |w.guards|
  {
  }

  /** A spent seat stays spent: no step wakes it, no byte is read, and every dialer hears that the input ended. */
  lemma {:induction false} SpentIsFinal(w: World, input: seq<byte>, steps: seq<Step>, dialer: NodeId, now: Instant)
    requires Inv(w, input) && w.cell.Spent?
    ensures var v := Run(w, input, steps);
            && v.cell.Spent? && v.log == w.log
            && Dial(v, dialer, now) == (v, TakeRefused(InputSpent))
  {
    if steps != [] {
      SpentIsFinal(w, input, steps[..|steps| - 1], dialer, now);
      RunKeepsInv(w, input, steps[..|steps| - 1]);
      SpentStaysSpent(Run(w, input, steps[..|steps| - 1]), input, steps[|steps| - 1]);
    }
  }

  /** The end of input reaches the dialer that was waiting for the reader, and never as a dead reader. */
  lemma TheEndReachesTheDialer(w: World, input: seq<byte>, g: nat)
    requires Inv(w, input) && Enabled(w, input, Returned(g))
    requires w.guards[g].inHand == Some(Ended)
    ensures var v := Next(w, input, Returned(g));
            && v.cell.Spent? && |v.guards| == |w.guards|
            && (w.cell.Handing? && w.channels[w.cell.grant].Waiting?
                ==> v.channels[w.cell.grant] == Sent(SpentGrant))
  {
  }

  /**
    One dial, in any state that can arise. A seat is taken at once exactly when nobody has it; its holder is
    displaced exactly by another peer's dial while preemptible, and then it had been stalled for a whole
    window of its own writes; any other dialer is refused and changes nothing.
  */
  lemma WhoMayTakeTheSeat(w: World, input: seq<byte>, dialer: NodeId, now: Instant)
    requires Inv(w, input) && now >= w.clock
    ensures var (v, take) := Dial(w, dialer, now);
            && (take.TookSeat? <==> w.cell.Armed?)
            && (take == TakeRefused(InputSpent) <==> w.cell.Spent?)
            && (take.TookPlace? <==> w.cell.Held? && w.cell.holder.peer != dialer
                                     && w.guards[w.cell.holder.guard].gauge.Preemptible(now))
            && (take.TookPlace? ==> exists k: nat :: Stalled(w.guards[w.cell.holder.guard].writes, k, now))
            && (take.TookPlace? ==> v.cell == Handing(dialer, take.grant)
                                    && v.guards[w.cell.holder.guard].lent == w.guards[w.cell.holder.guard].lent
                                    && v.guards[w.cell.holder.guard].preempted)
            && (take.TakeRefused? ==> v == w)
  {
    if Dial(w, dialer, now).1.TookPlace? {
      PreemptibleIsStalled(w.guards[w.cell.holder.guard].writes, now);
    }
  }

  /** From a hand-off the reader goes to its dialer, back to the seat if that dialer hung up, or to its end. */
  lemma AHandoffResolves(w: World, input: seq<byte>, s: Step)
    requires Inv(w, input) && w.cell.Handing?
    ensures var v, n := Next(w, input, s), |w.guards|;
            || (v.cell == w.cell && |v.guards| == n)
            || (&& v.cell == Held(Holder(w.cell.dialer, n)) && |v.guards| == n + 1
                && v.guards[n].lent.Some? && v.guards[n].peer == w.cell.dialer
                && v.channels[w.cell.grant] == Sent(Seated(n)))
            || (&& v.cell.Armed? && |v.guards| == n + 1 && w.channels[w.cell.grant].HungUp?
                && v.guards[n].Idle() && v.guards[n].peer == w.cell.dialer)
            || (v.cell.Spent? && v.ended && |v.guards| == n)
  {
  }

  /** A displaced holder's return, and the waiting dialer's taking what its channel is then sent. */
  lemma TheReturnReachesTheDialer(w: World, input: seq<byte>, g: nat)
    requires Inv(w, input) && w.cell.Handing? && w.channels[w.cell.grant].Waiting?
    requires Only(w.guards, g) && w.guards[g].inHand.Some?
    ensures var u := Next(w, input, Returned(g));
            && Enabled(w, input, Returned(g)) && Enabled(u, input, GrantTaken(w.cell.grant))
            && HandedOn(w, Next(u, input, GrantTaken(w.cell.grant)), g)
  {
    assert GuardInv(w.guards[g], |Delivered(w.log)|, w.ended, w.clock);
  }

  /** `v` is `w` with its hand-off done: the dialer seated where guard `g` left off, or told that the input ended. */
  ghost predicate HandedOn(w: World, v: World, g: nat)
    requires w.cell.Handing? && g < |w.guards|
  {
    && w.cell.grant < |v.channels|
    && v.channels[w.cell.grant].Received?
    && (w.ended ==> v.cell.Spent? && |v.guards| == |w.guards|)
    && (!w.ended ==> w.guards[g].HasReader() && |v.guards| == |w.guards| + 1
                     && v.cell == Held(Holder(w.cell.dialer, |w.guards|))
                     && v.guards[|w.guards|] == NewGuard(w.cell.dialer, w.guards[g].TheReader(), true))
  }

  /** Each step of `steps` is one the world can take when its turn comes. */
  ghost predicate AllEnabled(w: World, input: seq<byte>, steps: seq<Step>)
    requires Formed(w)
    decreases steps
  {
    steps == [] || (Enabled(w, input, steps[0]) && AllEnabled(Next(w, input, steps[0]), input, steps[1..]))
  }

  lemma {:induction false} RunFirst(w: World, input: seq<byte>, steps: seq<Step>)
    requires Formed(w) && steps != []
    ensures Run(w, input, steps) == Run(Next(w, input, steps[0]), input, steps[1..])
  {
    var before := steps[..|steps| - 1];
    if before == [] {
      assert Run(w, input, before) == w;
    } else {
      RunFirst(w, input, before);
      assert before[1..] == steps[1..][..|steps[1..]| - 1];
    }
  }

  /**
    And it can always come to its dialer: while that one waits, the displaced holder has only to let go of the
    reader, or to give back what it has already let go of, and the dialer to take what its channel was sent.
  */
  lemma AHandoffCanComplete(w: World, input: seq<byte>) returns (g: nat, steps: seq<Step>)
    requires Inv(w, input) && w.cell.Handing? && w.channels[w.cell.grant].Waiting?
    ensures Only(w.guards, g)
    ensures steps == (if w.guards[g].lent.Some? then [Dropped(g)] else []) + [Returned(g), GrantTaken(w.cell.grant)]
    ensures AllEnabled(w, input, steps) && HandedOn(w, Run(w, input, steps), g)
  {
    g :| Only(w.guards, g) && w.guards[g].delivered;
    var ending := [Returned(g), GrantTaken(w.cell.grant)];
    if w.guards[g].lent.Some? {
      assert GuardInv(w.guards[g], |Delivered(w.log)|, w.ended, w.clock);
      var u := Next(w, input, Dropped(g));
      NextKeepsInv(w, input, Dropped(g));
      assert Only(u.guards, g) && u.guards[g].TheReader() == w.guards[g].TheReader();
      AReturnCompletes(u, input, g);
      steps := [Dropped(g)] + ending;
      assert steps[1..] == ending;
      RunFirst(w, input, steps);
    } else {
      AReturnCompletes(w, input, g);
      steps := [] + ending;
      assert steps == ending;
    }
  }

  lemma AReturnCompletes(w: World, input: seq<byte>, g: nat)
    requires Inv(w, input) && w.cell.Handing? && w.channels[w.cell.grant].Waiting?
    requires Only(w.guards, g) && w.guards[g].inHand.Some?
    ensures var steps := [Returned(g), GrantTaken(w.cell.grant)];
            AllEnabled(w, input, steps) && HandedOn(w, Run(w, input, steps), g)
  {
    var s, t := Returned(g), GrantTaken(w.cell.grant);
    TheReturnReachesTheDialer(w, input, g);
    hide Inv, CellInv, Enabled, HandedOn;
    assert [s, t][1..] == [t] && [t][1..] == [];
    RunFirst(w, input, [s, t]);
    RunFirst(Next(w, input, s), input, [t]);
    assert AllEnabled(Next(w, input, s), input, [t]);
  }

  /**
    A dialer that gives up with its guard already sent: what the guard reads from is on its way back at once, and
    then the seat is armed again where the last holder stopped.
  */
  lemma AnUntakenReaderComesBack(w: World, input: seq<byte>, c: nat, g: nat)
    requires Inv(w, input) && Enabled(w, input, GaveUp(c)) && w.channels[c] == Sent(Seated(g))
    ensures var v := Next(w, input, GaveUp(c));
            && v.channels[c].HungUp? && Enabled(v, input, Returned(g))
            && var u := Next(v, input, Returned(g));
               && u.cell == Armed(Reader(|Delivered(w.log)|)) && u.strays == 0 && u.log == w.log
               && forall i :: 0 <= i < |u.guards| ==> u.guards[i].Idle()
  {
    assert GuardInv(w.guards[g], |Delivered(w.log)|, w.ended, w.clock);
  }

  /** How far the reader is from its seat, in steps its present holders can take. */
  function FromTheSeat(w: World, g: nat): nat
    requires g < |w.guards|
  {
    if w.cell.Armed? || w.cell.Spent? then 0
    else
      (if w.cell.Handing? then 3 else 0)
      + if w.guards[g].inHand.Some? then 1 else if w.guards[g].delivered then 2 else 3
  }

  /** What its present holder does next to bring the reader nearer its seat. */
  lemma TheNextStepBack(w: World, input: seq<byte>, g: nat) returns (s: Step, h: nat)
    requires Inv(w, input) && Only(w.guards, g) && (w.cell.Held? || w.cell.Handing?)
    requires w.cell.Handing? ==> w.guards[g].delivered
    ensures Enabled(w, input, s) && Inv(Next(w, input, s), input)
    ensures var v := Next(w, input, s);
            v.cell.Armed? || v.cell.Spent?
            || (Only(v.guards, h) && FromTheSeat(v, h) < FromTheSeat(w, g)
                && (v.cell.Held? || v.cell.Handing?) && (v.cell.Handing? ==> v.guards[h].delivered))
  {
    assert Formed(w);
    hide Inv, GaugeAt, Delivered;
    h := g;
    s := ItsNextStep(w, input, g);
    NextKeepsInv(w, input, s);
    ItsNextStepGoesBack(w, input, g, s);
    if s.Returned? && w.cell.Handing? && Next(w, input, s).cell.Held? {
      h := |w.guards|;
    }
  }

  lemma ItsNextStep(w: World, input: seq<byte>, g: nat) returns (s: Step)
    requires Inv(w, input) && Only(w.guards, g)
    ensures Enabled(w, input, s)
    ensures if w.guards[g].inHand.Some? then s == Returned(g)
            else if w.guards[g].delivered then s == Dropped(g)
            else s.GrantTaken? && w.channels[s.channel] == Sent(Seated(g))
  {
    if w.guards[g].inHand.Some? {
      s := Returned(g);
    } else if w.guards[g].delivered {
      s := Dropped(g);
    } else {
      assert Adrift(w.guards, g);
      var c: nat :| c < |w.channels| && w.channels[c] == Sent(Seated(g));
      s := GrantTaken(c);
    }
  }

  lemma ItsNextStepGoesBack(w: World, input: seq<byte>, g: nat, s: Step)
    requires Inv(w, input) && Only(w.guards, g) && (w.cell.Held? || w.cell.Handing?) && Enabled(w, input, s)
    requires w.cell.Handing? ==> w.guards[g].delivered
    requires if w.guards[g].inHand.Some? then s == Returned(g)
             else if w.guards[g].delivered then s == Dropped(g)
             else s.GrantTaken? && w.channels[s.channel] == Sent(Seated(g))
    ensures var v := Next(w, input, s);
            if s.Returned? then
              v.cell.Armed? || v.cell.Spent?
              || (v.cell.Held? && w.cell.Handing? && Only(v.guards, |w.guards|) && v.guards[|w.guards|].inHand.None?)
            else v.cell == w.cell && Only(v.guards, g) && v.guards[g].delivered
                 && (v.guards[g].inHand.Some? <==> s.Dropped?)
  {
  }

  lemma {:induction false} ItComesBack(w: World, input: seq<byte>, g: nat) returns (steps: seq<Step>)
    requires Inv(w, input) && Only(w.guards, g) && (w.cell.Held? || w.cell.Handing?)
    requires w.cell.Handing? ==> w.guards[g].delivered
    ensures AllEnabled(w, input, steps)
    ensures Run(w, input, steps).cell.Armed? || Run(w, input, steps).cell.Spent?
    decreases FromTheSeat(w, g)
  {
    assert Formed(w);
    hide Inv, Next, Enabled, GaugeAt, Delivered;
    var s, h := TheNextStepBack(w, input, g);
    var v, more := Next(w, input, s), [];
    if v.cell.Held? || v.cell.Handing? {
      more := ItComesBack(v, input, h);
    }
    steps := [s] + more;
    assert steps[1..] == more && steps[0] == s;
    RunFirst(w, input, steps);
  }

  /**
    The seat is never lost: from wherever any run has left it, whoever has the reader can let go of it in a few
    enabled steps, after which the next dialer takes the seat at once or hears that the input ended.
  */
  lemma TheSeatCanAlwaysComeBack(w: World, input: seq<byte>) returns (steps: seq<Step>)
    requires Inv(w, input)
    ensures AllEnabled(w, input, steps)
    ensures Run(w, input, steps).cell.Armed? || Run(w, input, steps).cell.Spent?
  {
    steps := [];
    match w.cell
    case Held(holder) =>
      steps := ItComesBack(w, input, holder.guard);
    case Handing(_, _) =>
      var g: nat :| Only(w.guards, g) && w.guards[g].delivered;
      steps := ItComesBack(w, input, g);
    case _ =>
  }

  /** Guards are never unmade and never change peer. */
  lemma GuardsOnlyGrow(w: World, input: seq<byte>, s: Step)
    requires Formed(w)
    ensures var v := Next(w, input, s);
            |w.guards| <= |v.guards| && forall g :: 0 <= g < |w.guards| ==> v.guards[g].peer == w.guards[g].peer
  {
  }

  /**
    No third dialer gets in between: however the world goes on, the next guard the seat makes after a
    hand-off begins is the waiting dialer's, and until there is one the hand-off stands or the input ended.
  */
  lemma {:induction false} NoThirdDialer(w: World, input: seq<byte>, steps: seq<Step>)
    requires Inv(w, input) && w.cell.Handing?
    ensures var v, n := Run(w, input, steps), |w.guards|;
            && n <= |v.guards|
            && (|v.guards| > n ==> v.guards[n].peer == w.cell.dialer)
            && (|v.guards| == n ==> v.cell == w.cell || v.cell.Spent?)
  {
    if steps != [] {
      var u, s := Run(w, input, steps[..|steps| - 1]), steps[|steps| - 1];
      NoThirdDialer(w, input, steps[..|steps| - 1]);
      RunKeepsInv(w, input, steps[..|steps| - 1]);
      GuardsOnlyGrow(u, input, s);
      if |u.guards| == |w.guards| {
        if u.cell == w.cell {
          AHandoffResolves(u, input, s);
        } else {
          SpentStaysSpent(u, input, s);
        }
      }
    }
  }
}
