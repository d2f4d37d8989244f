/**
  The `+lossy` fan-out (src/raw_stream_fanout.rs): one pump copying one source into the shared ring, and any
  number of viewers each reading it through a cursor. A step is one lock section (or one lock-free move
  between two of them), and the theorems hold for every interleaving of steps.
*/
module Fanouts {
  import opened Wrappers
  import opened Octets
  import opened Rings

  datatype Lifetime = UntilEof | WhileWatched

  /** Where the source's reader is: with the life lock until a viewer comes, with the pump's task, or dropped. */
  datatype Whereabouts = Waiting | Pumped | Dropped

  /**
    Where the pump's task is: at the top of its loop, waiting on the source, about to wake the viewers, past its
    decision to stop, past dropping its reader, and past closing the ring with the last wake still to come.
  */
  datatype Pump = Unstarted | Checking | Reading | Appended | Stopping | ReaderDropped | Closed | Exited {
    predicate Stopped() { Stopping? || ReaderDropped? || Closed? || Exited? }
  }

  /**
    Where a viewer's poll is. `Looking` has registered for a wake, and `fired` says one had already come;
    `Pending` is parked, and only a wake makes its task poll again.
  */
  datatype Stage = Resting | Looking(fired: bool) | Retrying | Pending

  /** What a viewer has been through: a gap it lost, bytes it got, and each time it stood at the live edge. */
  datatype Event = Lost(from: nat, count: nat, warned: bool) | Got(from: nat, bytes: seq<byte>) | Edge | SawEnd

  /** One cursor. `parked` is the wake count its registration was made at; `attached` where it joined. */
  datatype Viewer = Viewer(pos: nat, lagged: bool, parked: Option<nat>, stage: Stage, live: bool,
                           attached: nat, trail: seq<Event>)
  {
    function Register(waves: nat): (r: Viewer)
      ensures r.stage.Looking? && r == this.(parked := r.parked, stage := r.stage)
    {
      if parked.None? then this.(parked := Some(waves), stage := Looking(false))
      else if parked.value < waves then this.(parked := None, stage := Looking(true))
      else this.(stage := Looking(false))
    }

    function LookedAt(r: RingState, room: nat): Viewer
      requires stage.Looking?
    {
      var look := LookAt(pos, lagged, r, room);
      Viewer(look.pos, look.lagged,
             if look.seen.Nothing? then parked else None,
             if !look.seen.Nothing? then Resting else if stage.fired then Retrying else Pending,
             live, attached, trail + EventsOf(pos, look, r.Head()))
    }

    /** One pass of a poll's loop, with nothing in between. */
    function Pass(waves: nat, r: RingState, room: nat): Viewer { Register(waves).LookedAt(r, room) }
  }

  function EventsOf(pos: nat, look: Look, head: nat): seq<Event> {
    (if look.lost > 0 then [Lost(pos, look.lost, look.warned)] else []) + RestOf(pos + look.lost, look, head)
  }

  /** The events of a look after its loss. */
  function RestOf(at: nat, look: Look, head: nat): seq<Event> {
    (if look.seen.Bytes? then [Got(at, look.seen.bytes)] else [])
    + (if look.pos == head then [Edge] else [])
    + (if look.seen.EndOfStream? then [SawEnd] else [])
  }

  function NewViewer(head: nat): Viewer {
    Viewer(head, false, None, Resting, true, head, [])
  }

  /**
    The shared state, with the history the theorems speak of. `opening` holds from an `open` that has passed
    its source or closed check until it has counted its viewer: all that time it holds the life lock.
  */
  datatype Fan = Fan(lifetime: Lifetime, reader: Whereabouts, pump: Pump, opening: bool, consumers: nat,
                     ring: RingState, waves: nat, viewers: seq<Viewer>, history: seq<byte>, sourceEnded: bool)
  {
    predicate Released() { lifetime.WhileWatched? && consumers == 0 }

    predicate HasReader() { !reader.Dropped? }
  }

  function NewFan(lifetime: Lifetime): Fan {
    Fan(lifetime, Waiting, Unstarted, false, 0, EMPTY_RING, 0, [], [], false)
  }

  datatype Step =
    | OpenStarts | OpenAttaches
    | PumpChecks | PumpReads(bytes: seq<byte>) | PumpEnds | PumpWakes | PumpDropsReader | PumpCloses
    | Registers(viewer: nat) | Looks(viewer: nat, room: nat) | Leaves(viewer: nat)

  predicate Enabled(f: Fan, s: Step) {
    match s
    case OpenStarts => !f.opening && (f.reader.Waiting? || !f.ring.closed)
    case OpenAttaches => f.opening
    case PumpChecks => f.pump.Checking? && !f.opening
    case PumpReads(bytes) => f.pump.Reading? && f.reader.Pumped? && 0 < |bytes| <= PUMP_CHUNK
    case PumpEnds => f.pump.Reading? && f.reader.Pumped?
    case PumpWakes => f.pump.Appended? || f.pump.Closed?
    case PumpDropsReader => f.pump.Stopping?
    case PumpCloses => f.pump.ReaderDropped?
    case Registers(i) => i < |f.viewers| && f.viewers[i].live && !f.viewers[i].stage.Looking?
    case Looks(i, _) => i < |f.viewers| && f.viewers[i].live && f.viewers[i].stage.Looking?
    case Leaves(i) => i < |f.viewers| && f.viewers[i].live && !f.opening
  }

  function Next(f: Fan, s: Step): Fan {
    if !Enabled(f, s) then f
    else match s
      case OpenStarts =>
        if f.reader.Waiting? then f.(opening := true, reader := Pumped, pump := Checking) else f.(opening := true)
      case OpenAttaches =>
        f.(opening := false, consumers := f.consumers + 1, viewers := f.viewers + [NewViewer(f.ring.Head())])
      case PumpChecks => f.(pump := if f.Released() then Stopping else Reading)
      case PumpReads(bytes) =>
        f.(pump := Appended, ring := f.ring.Append(bytes), history := f.history + bytes)
      case PumpEnds => f.(pump := Stopping, sourceEnded := true)
      case PumpWakes => f.(pump := if f.pump.Appended? then Checking else Exited, waves := f.waves + 1)
      case PumpDropsReader => f.(pump := ReaderDropped, reader := Dropped)
      case PumpCloses => f.(pump := Closed, ring := f.ring.(closed := true))
      case Registers(i) => f.(viewers := f.viewers[i := f.viewers[i].Register(f.waves)])
      case Looks(i, room) => f.(viewers := f.viewers[i := f.viewers[i].LookedAt(f.ring, room)])
      case Leaves(i) =>
        f.(consumers := if f.consumers > 0 then f.consumers - 1 else 0,
           viewers := f.viewers[i := f.viewers[i].(live := false, parked := None, stage := Resting)])
  }

  function Run(f: Fan, steps: seq<Step>): Fan {
    if steps == [] then f else Next(Run(f, steps[..|steps| - 1]), steps[|steps| - 1])
  }

  // ----- the code's own shape ---------------------------------------------------------------------------

  datatype SourceRead = Chunk(bytes: seq<byte>) | EndOrError

  predicate Readable(read: SourceRead) {
    read.Chunk? ==> 0 < |read.bytes| <= PUMP_CHUNK
  }

  /** What the pump appends before its source ends. */
  function Appends(input: seq<SourceRead>): seq<byte> {
    if input == [] || input[0].EndOrError? then [] else input[0].bytes + Appends(input[1..])
  }

  const LETTING_GO := [PumpDropsReader, PumpCloses, PumpWakes]

  /** The pump's own steps over what its source gives, `released` being whether its lifetime is over. */
  function PumpScript(released: bool, input: seq<SourceRead>): seq<Step> {
    if released then [PumpChecks] + LETTING_GO
    else if input == [] then [PumpChecks]
    else match input[0]
      case EndOrError => [PumpChecks, PumpEnds] + LETTING_GO
      case Chunk(bytes) => [PumpChecks, PumpReads(bytes), PumpWakes] + PumpScript(released, input[1..])
  }

  lemma RunOne(f: Fan, steps: seq<Step>, s: Step)
    ensures Run(f, steps + [s]) == Next(Run(f, steps), s)
  {
    assert (steps + [s])[..|steps|] == steps;
  }

  /**
    The fan-out as the code holds it. Each lock section is a method of its own, which may run only where the
    machine allows its step and does exactly that step; `trace` keeps the steps in the order they were taken.
  */
  class Fanout {
    const lifetime: Lifetime
    var reader: Whereabouts
    var pump: Pump
    var opening: bool
    var consumers: nat
    const ring: Ring
    var waves: nat
    var viewers: seq<Viewer>
    ghost var sourceEnded: bool
    ghost var trace: seq<Step>

    ghost function State(): Fan
      reads this, ring
    {
      Fan(lifetime, reader, pump, opening, consumers, ring.State(), waves, viewers, ring.history, sourceEnded)
    }

    ghost predicate Valid()
      reads this, ring
    {
      ring.Valid() && State() == Run(NewFan(lifetime), trace)
    }

    constructor (lifetime: Lifetime)
      ensures Valid() && this.lifetime == lifetime && trace == [] && fresh(ring)
    {
      this.lifetime, reader, pump, opening, consumers := lifetime, Waiting, Unstarted, false, 0;
      waves, viewers, sourceEnded, trace := 0, [], false, [];
      ring := new Ring();
    }

    // ----- the lock sections -----

    /** Under the life lock: take the source and start the pump, or find the session over. */
    method StartOpen() returns (on: bool)
      requires Valid() && !opening
      modifies this`opening, this`reader, this`pump, this`trace
      ensures Valid()
      ensures on <==> old(Enabled(State(), OpenStarts))
      ensures State() == Next(old(State()), OpenStarts)
      ensures trace == old(trace) + if on then [OpenStarts] else []
    {
      hide LookAt, EventsOf;
      if !reader.Waiting? && ring.closed {
        return false;
      }
      if reader.Waiting? {
        reader := Pumped;
        pump := Checking;
      }
      opening := true;
      RunOne(NewFan(lifetime), trace, OpenStarts);
      trace := trace + [OpenStarts];
      return true;
    }

    /** Still under it: count the viewer and place it at the live edge. */
    method Attach() returns (viewer: nat)
      requires Valid() && Enabled(State(), OpenAttaches)
      modifies this`opening, this`consumers, this`viewers, this`trace
      ensures Valid() && State() == Next(old(State()), OpenAttaches) && trace == old(trace) + [OpenAttaches]
      ensures viewer == |old(viewers)|
    {
      hide LookAt, EventsOf;
      consumers := consumers + 1;
      viewer := |viewers|;
      viewers := viewers + [NewViewer(ring.base + |ring.buf|)];
      opening := false;
      RunOne(NewFan(lifetime), trace, OpenAttaches);
      trace := trace + [OpenAttaches];
    }

    method Leave(i: nat)
      requires Valid() && Enabled(State(), Leaves(i))
      modifies this`consumers, this`viewers, this`trace
      ensures Valid() && State() == Next(old(State()), Leaves(i)) && trace == old(trace) + [Leaves(i)]
    {
      viewers := viewers[i := viewers[i].(live := false, parked := None, stage := Resting)];
      if consumers > 0 {
        consumers := consumers - 1;
      }
      RunOne(NewFan(lifetime), trace, Leaves(i));
      trace := trace + [Leaves(i)];
    }

    /** The top of the pump's loop. */
    method CheckLife() returns (released: bool)
      requires Valid() && Enabled(State(), PumpChecks)
      modifies this`pump, this`trace
      ensures Valid() && State() == Next(old(State()), PumpChecks) && trace == old(trace) + [PumpChecks]
      ensures released == old(State()).Released() && pump == if released then Stopping else Reading
    {
      released := lifetime.WhileWatched? && consumers == 0;
      pump := if released then Stopping else Reading;
      RunOne(NewFan(lifetime), trace, PumpChecks);
      trace := trace + [PumpChecks];
    }

    method AppendChunk(bytes: seq<byte>)
      requires Valid() && Enabled(State(), PumpReads(bytes))
      modifies this`pump, this`trace, ring
      ensures Valid() && State() == Next(old(State()), PumpReads(bytes)) && trace == old(trace) + [PumpReads(bytes)]
      ensures pump.Appended? && ring.history == old(ring.history) + bytes
    {
      ring.Append(bytes);
      pump := Appended;
      RunOne(NewFan(lifetime), trace, PumpReads(bytes));
      trace := trace + [PumpReads(bytes)];
    }

    method EndSource()
      requires Valid() && Enabled(State(), PumpEnds)
      modifies this`pump, this`sourceEnded, this`trace
      ensures Valid() && State() == Next(old(State()), PumpEnds) && trace == old(trace) + [PumpEnds]
      ensures pump.Stopping?
    {
      sourceEnded := true;
      pump := Stopping;
      RunOne(NewFan(lifetime), trace, PumpEnds);
      trace := trace + [PumpEnds];
    }

    method WakeViewers()
      requires Valid() && Enabled(State(), PumpWakes)
      modifies this`pump, this`waves, this`trace
      ensures Valid() && State() == Next(old(State()), PumpWakes) && trace == old(trace) + [PumpWakes]
      ensures pump == if old(pump).Appended? then Checking else Exited
    {
      waves := waves + 1;
      pump := if pump.Appended? then Checking else Exited;
      RunOne(NewFan(lifetime), trace, PumpWakes);
      trace := trace + [PumpWakes];
    }

    method DropReader()
      requires Valid() && Enabled(State(), PumpDropsReader)
      modifies this`pump, this`reader, this`trace
      ensures Valid() && State() == Next(old(State()), PumpDropsReader) && trace == old(trace) + [PumpDropsReader]
      ensures pump.ReaderDropped? && reader.Dropped?
    {
      reader := Dropped;
      pump := ReaderDropped;
      RunOne(NewFan(lifetime), trace, PumpDropsReader);
      trace := trace + [PumpDropsReader];
    }

    method CloseRing()
      requires Valid() && Enabled(State(), PumpCloses)
      modifies this`pump, this`trace, ring`closed
      ensures Valid() && State() == Next(old(State()), PumpCloses) && trace == old(trace) + [PumpCloses]
      ensures pump.Closed? && ring.closed
    {
      ring.Close();
      pump := Closed;
      RunOne(NewFan(lifetime), trace, PumpCloses);
      trace := trace + [PumpCloses];
    }

    /** Poll the parked wake, making one if there is none. */
    method Register(i: nat)
      requires Valid() && Enabled(State(), Registers(i))
      modifies this`viewers, this`trace
      ensures Valid() && State() == Next(old(State()), Registers(i)) && trace == old(trace) + [Registers(i)]
      ensures viewers == old(viewers)[i := old(viewers[i]).Register(waves)]
    {
      var viewer := viewers[i];
      var fired := viewer.parked.Some? && viewer.parked.value < waves;
      if fired {
        viewer := viewer.(parked := None);
      } else if viewer.parked.None? {
        viewer := viewer.(parked := Some(waves));
      }
      viewers := viewers[i := viewer.(stage := Looking(fired))];
      RunOne(NewFan(lifetime), trace, Registers(i));
      trace := trace + [Registers(i)];
    }

    /** Under the ring lock. */
    method LookAtRing(i: nat, room: nat) returns (seen: Seen)
      requires Valid() && Enabled(State(), Looks(i, room))
      modifies this`viewers, this`trace
      ensures Valid() && State() == Next(old(State()), Looks(i, room)) && trace == old(trace) + [Looks(i, room)]
      ensures viewers == old(viewers)[i := old(viewers[i]).LookedAt(ring.State(), room)]
      ensures viewers[i].live && viewers[i].stage
              == if !seen.Nothing? then Resting else if old(viewers[i]).stage.fired then Retrying else Pending
      ensures Gives(seen, old(viewers[i]).pos, viewers[i].pos, room, ring.closed, ring.history)
    {
      ALookGives(lifetime, trace, i, room);
      hide Gives, LookAt, EventsOf;
      seen := LookAt(viewers[i].pos, viewers[i].lagged, ring.State(), room).seen;
      viewers := viewers[i := viewers[i].LookedAt(ring.State(), room)];
      RunOne(NewFan(lifetime), trace, Looks(i, room));
      trace := trace + [Looks(i, room)];
    }

    // ----- what is made of them -----

    /** Attach a viewer at the live edge, starting the pump for the first one; none once the session is over. */
    method Open() returns (viewer: Option<nat>)
      requires Valid() && !opening
      modifies this`opening, this`reader, this`pump, this`consumers, this`viewers, this`trace
      ensures Valid()
      ensures viewer.None? <==> !old(reader).Waiting? && old(ring.closed)
      ensures viewer.None? ==> State() == old(State()) && trace == old(trace)
      ensures viewer.Some? ==> State() == Next(Next(old(State()), OpenStarts), OpenAttaches)
      ensures viewer.Some? ==> trace == old(trace) + [OpenStarts, OpenAttaches] && viewer.value == |old(viewers)|
    {
      var on := StartOpen();
      if !on {
        return None;
      }
      var at := Attach();
      viewer := Some(at);
    }

    /** Past the loop: the reader goes before the ring is marked closed, and the viewers are woken last. */
    method StopPump()
      requires Valid() && pump.Stopping?
      modifies this`pump, this`reader, this`waves, this`trace, ring`closed
      ensures Valid() && trace == old(trace) + LETTING_GO
      ensures pump.Exited? && reader.Dropped? && ring.closed && opening == old(opening)
    {
      hide Next, Run;
      DropReader();
      CloseRing();
      WakeViewers();
    }

    /**
      The pump's loop over what its source gives. It never waits on a viewer: with its lifetime still on, it
      appends everything its source gives before the source ends, however far behind the viewers are.
    */
    method RunPump(input: seq<SourceRead>)
      requires Valid() && pump.Checking? && reader.Pumped? && !opening
      requires forall read :: read in input ==> Readable(read)
      modifies this`pump, this`reader, this`waves, this`sourceEnded, this`trace, ring
      ensures Valid() && trace == old(trace) + PumpScript(old(State()).Released(), input)
      ensures ring.history == old(ring.history) + if old(State()).Released() then [] else Appends(input)
      ensures pump == if old(State()).Released() || EndOrError in input then Exited else Reading
    {
      hide Next, Run, PumpScript, Appends, Valid;
      ghost var released, script := State().Released(), PumpScript(State().Released(), input);
      ghost var rest, taken: seq<Step>, carried: seq<byte> := script, [], [];
      var at := 0;
      assert input[0..] == input;
      while true
        invariant at <= |input| && Valid() && pump.Checking? && reader.Pumped? && !opening
        invariant EndOrError !in input[..at] && (at > 0 ==> !released) && (at == 0 ==> carried == [])
        invariant script == taken + rest && rest == PumpScript(released, input[at..])
        invariant trace == old(trace) + taken && ring.history == old(ring.history) + carried
        invariant Appends(input) == carried + Appends(input[at..])
        decreases |input| - at
      {
        ATurnOfTheScript(released, input, at);
        var over := CheckLife();
        taken, rest := Advanced(script, old(trace), taken, rest, [PumpChecks]);
        if over {
          break;
        }
        if at == |input| {
          assert input[..at] == input;
          return;
        }
        if input[at].EndOrError? {
          EndSource();
          taken, rest := Advanced(script, old(trace), taken, rest, [PumpEnds]);
          break;
        }
        var bytes := input[at].bytes;
        assert Readable(input[at]);
        Carry(bytes);
        taken, rest := Advanced(script, old(trace), taken, rest, [PumpReads(bytes), PumpWakes]);
        assert carried + bytes + Appends(input[at + 1..]) == carried + (bytes + Appends(input[at + 1..]));
        carried, at := carried + bytes, at + 1;
      }
      StopPump();
      taken, rest := Advanced(script, old(trace), taken, rest, LETTING_GO);
    }

    /** How a script goes on from the top of a turn. */
    static lemma ATurnOfTheScript(released: bool, input: seq<SourceRead>, at: nat)
      requires at <= |input|
      ensures var script := PumpScript(released, input[at..]);
              if released then script == [PumpChecks] + LETTING_GO
              else if at == |input| then script == [PumpChecks] && Appends(input[at..]) == []
              else match input[at]
                case EndOrError => script == [PumpChecks, PumpEnds] + LETTING_GO && Appends(input[at..]) == []
                case Chunk(bytes) =>
                  && script == [PumpChecks, PumpReads(bytes), PumpWakes] + PumpScript(released, input[at + 1..])
                  && Appends(input[at..]) == bytes + Appends(input[at + 1..])
    {
      if at < |input| {
        assert input[at..][1..] == input[at + 1..];
      }
    }

    static lemma Advanced(script: seq<Step>, before: seq<Step>, taken: seq<Step>, rest: seq<Step>, steps: seq<Step>)
      returns (after: seq<Step>, left: seq<Step>)
      requires script == taken + rest && steps <= rest
      ensures after == taken + steps && left == rest[|steps|..] && script == after + left
      ensures before + taken + steps == before + after
    {
      after, left := taken + steps, rest[|steps|..];
    }

    /** One chunk into the ring, and every parked viewer woken. */
    method Carry(bytes: seq<byte>)
      requires Valid() && Enabled(State(), PumpReads(bytes))
      modifies this`pump, this`waves, this`trace, ring
      ensures Valid() && trace == old(trace) + [PumpReads(bytes), PumpWakes]
      ensures pump.Checking? && ring.history == old(ring.history) + bytes
    {
      hide Next, Run;
      AppendChunk(bytes);
      WakeViewers();
    }

    /**
      One poll of viewer `i`: register, then look; look again only if a wake had come before it registered. What it
      gives is the source's bytes where the viewer then stands, no more than it has room for, or the end once closed.
    */
    method PollRead(i: nat, room: nat) returns (seen: Seen)
      requires Valid() && Enabled(State(), Registers(i))
      modifies this`viewers, this`trace
      ensures Valid()
      ensures var once := old(viewers[i]).Pass(waves, ring.State(), room);
              && viewers == old(viewers)[i := if once.stage.Retrying? then once.Pass(waves, ring.State(), room)
                                              else once]
              && trace == old(trace) + [Registers(i), Looks(i, room)]
                          + if once.stage.Retrying? then [Registers(i), Looks(i, room)] else []
      ensures Gives(seen, old(viewers[i]).pos, viewers[i].pos, room, ring.closed, ring.history)
      ensures if seen.Nothing? then viewers[i].stage.Pending? && viewers[i].parked.Some? else viewers[i].stage.Resting?
    {
      hide Next, Run, Viewer.Pass, Viewer.Register, Viewer.LookedAt, Valid;
      ghost var once := viewers[i].Pass(waves, ring.State(), room);
      var passes := 0;
      PassMeaning(viewers[i], waves, ring.State(), room);
      PassMeaning(once, waves, ring.State(), room);
      while true
        invariant 0 <= passes <= 1 && Valid() && Enabled(State(), Registers(i))
        invariant viewers == if passes == 0 then old(viewers) else old(viewers)[i := once]
        invariant passes == 1 ==> once.stage.Retrying? && once.parked.None?
        invariant old(viewers[i]).pos <= viewers[i].pos
        invariant trace == old(trace) + if passes == 0 then [] else [Registers(i), Looks(i, room)]
        decreases 1 - passes
      {
        var fired;
        fired, seen := PollOnce(i, room);
        if !seen.Nothing? || !fired {
          return;
        }
        passes := passes + 1;
      }
    }

    /** One pass of the poll's loop; `fired` is whether the wake it polled had already come. */
    method PollOnce(i: nat, room: nat) returns (fired: bool, seen: Seen)
      requires Valid() && Enabled(State(), Registers(i))
      modifies this`viewers, this`trace
      ensures Valid() && trace == old(trace) + [Registers(i), Looks(i, room)]
      ensures viewers == old(viewers)[i := old(viewers[i]).Pass(waves, ring.State(), room)]
      ensures !viewers[i].stage.Resting? ==> (fired <==> viewers[i].stage.Retrying?)
      ensures viewers[i].live && !viewers[i].stage.Looking?
      ensures seen.Nothing? <==> !viewers[i].stage.Resting?
      ensures Gives(seen, old(viewers[i]).pos, viewers[i].pos, room, ring.closed, ring.history)
    {
      hide Next, Run, Gives, Viewer.LookedAt;
      Register(i);
      fired := viewers[i].stage.fired;
      seen := LookAtRing(i, room);
    }
  }

  /** What a poll that moved a cursor from `from` to `to` may give it. */
  ghost predicate Gives(seen: Seen, from: nat, to: nat, room: nat, closed: bool, history: seq<byte>) {
    && from <= to <= |history|
    && match seen
       case Bytes(bytes) =>
         var at := to - |bytes|;
         from <= at && bytes == history[at..to] && |bytes| == Lesser(room, |history| - at)
       case EndOfStream => closed && to == |history|
       case Nothing => !closed && to == |history|
  }

  lemma ItsRingIsTheTail(lifetime: Lifetime, steps: seq<Step>, i: nat)
    requires i < |Run(NewFan(lifetime), steps).viewers|
    ensures var f := Run(NewFan(lifetime), steps); f.ring.Tails(f.history) && f.viewers[i].pos <= |f.history|
  {
    RunKeepsInv(NewFan(lifetime), steps);
    hide Run;
  }

  lemma ALookGives(lifetime: Lifetime, steps: seq<Step>, i: nat, room: nat)
    requires i < |Run(NewFan(lifetime), steps).viewers|
    ensures var f := Run(NewFan(lifetime), steps);
            var look := LookAt(f.viewers[i].pos, f.viewers[i].lagged, f.ring, room);
            Gives(look.seen, f.viewers[i].pos, look.pos, room, f.ring.closed, f.history)
  {
    var f := Run(NewFan(lifetime), steps);
    ItsRingIsTheTail(lifetime, steps, i);
    hide Run;
    LookReadsTheHistory(f.viewers[i].pos, f.viewers[i].lagged, f.ring, room, f.history);
  }

  lemma PassMeaning(v: Viewer, waves: nat, r: RingState, room: nat)
    ensures var w := v.Pass(waves, r, room);
            && w.live == v.live && !w.stage.Looking?
            && (w.stage.Retrying? ==> w.parked.None?)
            && (w.stage.Pending? ==> w.parked.Some?)
            && (v.parked.None? ==> !w.stage.Retrying?)
  {
  }

  /** A pass of a poll is two steps of the world, between which anything else may come. */
  lemma APassIsTwoSteps(f: Fan, i: nat, room: nat)
    requires i < |f.viewers| && f.viewers[i].live && !f.viewers[i].stage.Looking?
    ensures Next(Next(f, Registers(i)), Looks(i, room))
            == f.(viewers := f.viewers[i := f.viewers[i].Pass(f.waves, f.ring, room)])
  {
  }

  // ----- what a viewer's trail says --------------------------------------------------------------------

  /** Where a viewer that attached at `attached` stands after `trail`. */
  function Reach(attached: nat, trail: seq<Event>): nat {
    if trail == [] then attached
    else
      var before := Reach(attached, trail[..|trail| - 1]);
      match trail[|trail| - 1]
      case Lost(_, count, _) => before + count
      case Got(_, bytes) => before + |bytes|
      case _ => before
  }

  /** Every event starts where the one before it ended, and what was got is what the source produced there. */
  ghost predicate Faithful(attached: nat, trail: seq<Event>, history: seq<byte>) {
    trail == [] ||
    (var before := Reach(attached, trail[..|trail| - 1]);
     && Faithful(attached, trail[..|trail| - 1], history)
     && match trail[|trail| - 1]
        case Lost(from, count, _) => from == before && 0 < count && from + count <= |history|
        case Got(from, bytes) => from == before && from + |bytes| <= |history|
                                 && bytes == history[from..from + |bytes|]
        case _ => true)
  }

  /** Whether a gap was logged and the viewer has not stood at the live edge since. */
  predicate InEpisode(trail: seq<Event>) {
    trail != [] && match trail[|trail| - 1]
                   case Edge => false
                   case Lost(_, _, _) => true
                   case _ => InEpisode(trail[..|trail| - 1])
  }

  /** A gap is logged exactly when it opens an episode. */
  predicate LoggedOnce(trail: seq<Event>) {
    trail == [] || (var before := trail[..|trail| - 1];
                    LoggedOnce(before)
                    && (trail[|trail| - 1].Lost? ==> (trail[|trail| - 1].warned <==> !InEpisode(before))))
  }

  /** `trail` is a true account of a viewer that now stands at `pos`, inside an episode if `lagged`. */
  ghost predicate Told(attached: nat, trail: seq<Event>, history: seq<byte>, pos: nat, lagged: bool) {
    && pos == Reach(attached, trail) <= |history|
    && Faithful(attached, trail, history)
    && LoggedOnce(trail)
    && (lagged <==> InEpisode(trail))
  }

  lemma TellLost(attached: nat, trail: seq<Event>, history: seq<byte>, pos: nat, lagged: bool, count: nat)
    requires Told(attached, trail, history, pos, lagged) && 0 < count && pos + count <= |history|
    ensures Told(attached, trail + [Lost(pos, count, !lagged)], history, pos + count, true)
  {
    assert (trail + [Lost(pos, count, !lagged)])[..|trail|] == trail;
  }

  lemma TellGot(attached: nat, trail: seq<Event>, history: seq<byte>, pos: nat, lagged: bool, bytes: seq<byte>)
    requires Told(attached, trail, history, pos, lagged)
    requires pos + |bytes| <= |history| && bytes == history[pos..pos + |bytes|]
    ensures Told(attached, trail + [Got(pos, bytes)], history, pos + |bytes|, lagged)
  {
    assert (trail + [Got(pos, bytes)])[..|trail|] == trail;
  }

  lemma TellSeen(attached: nat, trail: seq<Event>, history: seq<byte>, pos: nat, lagged: bool, e: Event)
    requires Told(attached, trail, history, pos, lagged) && (e.Edge? || e.SawEnd?)
    ensures Told(attached, trail + [e], history, pos, lagged && !e.Edge?)
  {
    assert (trail + [e])[..|trail|] == trail;
  }

  lemma {:induction false} FaithfulGrows(attached: nat, trail: seq<Event>, history: seq<byte>, more: seq<byte>)
    requires Faithful(attached, trail, history)
    ensures Faithful(attached, trail, history + more)
  {
    if trail != [] {
      FaithfulGrows(attached, trail[..|trail| - 1], history, more);
      match trail[|trail| - 1]
      case Got(from, bytes) =>
        assert (history + more)[from..from + |bytes|] == history[from..from + |bytes|];
      case _ =>
    }
  }

  // ----- the invariant ---------------------------------------------------------------------------------

  function LiveCount(viewers: seq<Viewer>): nat {
    if viewers == [] then 0
    else LiveCount(viewers[..|viewers| - 1]) + (if viewers[|viewers| - 1].live then 1 else 0)
  }

  ghost predicate TrailInv(v: Viewer, history: seq<byte>) {
    Told(v.attached, v.trail, history, v.pos, v.lagged)
  }

  /** A parked viewer has seen everything there is, or its wake has come, or is the pump's very next move. */
  ghost predicate ParkInv(v: Viewer, f: Fan) {
    match v.stage
    case Resting => v.parked.None?
    case Retrying => v.parked.None?
    case Looking(fired) => if fired then v.parked.None? else v.parked.Some? && v.parked.value <= f.waves
    case Pending =>
      && v.parked.Some? && v.parked.value <= f.waves
      && (v.parked.value == f.waves ==>
            (v.pos == |f.history| && !f.ring.closed) || f.pump.Appended? || f.pump.Closed?)
  }

  /**
    The ring is closed exactly once the pump has let go, the reader is where the pump's task has got to, and
    nobody has joined a pump that has not started.
  */
  ghost predicate PumpOrder(f: Fan) {
    && (f.reader.Waiting? <==> f.pump.Unstarted?)
    && (f.reader.Dropped? <==> f.pump.ReaderDropped? || f.pump.Closed? || f.pump.Exited?)
    && (f.ring.closed <==> f.pump.Closed? || f.pump.Exited?)
    && (f.pump.Unstarted? ==> f.viewers == [] && !f.opening)
  }

  /** That much holds of one session alone, and a session neither re-opens nor un-starts. */
  lemma NextKeepsPumpOrder(f: Fan, s: Step)
    requires PumpOrder(f)
    ensures var g := Next(f, s);
            && PumpOrder(g)
            && (f.ring.closed ==> g.ring.closed)
            && (f.pump.Unstarted? && !s.OpenStarts? ==> g.pump.Unstarted?)
            && g.lifetime == f.lifetime
            && (!s.OpenStarts? && !s.OpenAttaches? ==> g.opening == f.opening)
            && (s.OpenStarts? && !f.opening ==> (g.opening <==> f.pump.Unstarted? || !f.ring.closed))
            && (s.OpenAttaches? ==> !g.opening)
  {
  }

  ghost predicate PumpInv(f: Fan) {
    && PumpOrder(f)
    && (f.viewers == [] ==> f.pump.Unstarted? || (f.pump.Checking? && f.opening))
    && (f.lifetime.UntilEof? && f.pump.Stopped() ==> f.sourceEnded)
    && f.consumers == LiveCount(f.viewers)
  }

  ghost predicate Inv(f: Fan) {
    && f.ring.Tails(f.history)
    && PumpInv(f)
    && (forall i :: 0 <= i < |f.viewers| ==> TrailInv(f.viewers[i], f.history) && ParkInv(f.viewers[i], f))
  }

  lemma TellLook(attached: nat, trail: seq<Event>, history: seq<byte>, pos: nat, lagged: bool, look: Look)
    requires Told(attached, trail, history, pos, lagged)
    requires look.warned == (look.lost > 0 && !lagged) && pos + look.lost <= look.pos <= |history|
    requires look.seen.Bytes? ==> look.seen.bytes == history[pos + look.lost..look.pos]
    requires !look.seen.Bytes? ==> look.pos == pos + look.lost == |history|
    requires look.lagged == ((lagged || look.lost > 0) && look.pos != |history|)
    ensures Told(attached, trail + EventsOf(pos, look, |history|), history, look.pos, look.lagged)
  {
    hide Told, RestOf;
    var rest := RestOf(pos + look.lost, look, |history|);
    if look.lost > 0 {
      var gap := Lost(pos, look.lost, look.warned);
      assert pos + look.lost <= |history|;
      TellLost(attached, trail, history, pos, lagged, look.lost);
      TellRest(attached, trail + [gap], history, pos + look.lost, true, look);
      assert trail + ([gap] + rest) == trail + [gap] + rest;
    } else {
      TellRest(attached, trail, history, pos, lagged, look);
      assert [] + rest == rest;
    }
  }

  lemma TellRest(attached: nat, trail: seq<Event>, history: seq<byte>, at: nat, behind: bool, look: Look)
    requires Told(attached, trail, history, at, behind) && at <= look.pos <= |history|
    requires look.seen.Bytes? ==> look.seen.bytes == history[at..look.pos]
    requires !look.seen.Bytes? ==> look.pos == at == |history|
    ensures Told(attached, trail + RestOf(at, look, |history|), history, look.pos,
                 behind && look.pos != |history|)
  {
    var t := if look.seen.Bytes? then trail + [Got(at, look.seen.bytes)] else trail;
    assert Told(attached, t, history, look.pos, behind) by {
      if look.seen.Bytes? { TellGot(attached, trail, history, at, behind, look.seen.bytes); }
    }
    if look.pos == |history| {
      TellSeen(attached, t, history, look.pos, behind, Edge);
      if look.seen.EndOfStream? {
        TellSeen(attached, t + [Edge], history, look.pos, false, SawEnd);
        assert trail + RestOf(at, look, |history|) == t + [Edge] + [SawEnd];
      } else {
        assert trail + RestOf(at, look, |history|) == t + [Edge];
      }
    } else {
      assert trail + RestOf(at, look, |history|) == t;
    }
  }

  lemma LookKeepsTrail(v: Viewer, r: RingState, room: nat, history: seq<byte>)
    requires r.Tails(history) && TrailInv(v, history) && v.stage.Looking?
    ensures TrailInv(v.LookedAt(r, room), history)
  {
    LookReadsTheHistory(v.pos, v.lagged, r, room, history);
    TellLook(v.attached, v.trail, history, v.pos, v.lagged, LookAt(v.pos, v.lagged, r, room));
  }

  lemma LookKeepsPark(v: Viewer, f: Fan, room: nat)
    requires Inv(f) && TrailInv(v, f.history) && ParkInv(v, f) && v.stage.Looking?
    ensures ParkInv(v.LookedAt(f.ring, room), f)
  {
    LookReadsTheHistory(v.pos, v.lagged, f.ring, room, f.history);
  }

  lemma {:induction false} LiveCountPatch(viewers: seq<Viewer>, i: nat, v: Viewer)
    requires i < |viewers|
    ensures LiveCount(viewers[i := v]) + (if viewers[i].live then 1 else 0)
            == LiveCount(viewers) + (if v.live then 1 else 0)
  {
    var n := |viewers| - 1;
    if i < n {
      LiveCountPatch(viewers[..n], i, v);
      assert viewers[i := v][..n] == viewers[..n][i := v];
    } else {
      assert viewers[i := v][..n] == viewers[..n];
    }
  }

  /** A step that changes one viewer, and the count if it leaves, keeps the invariant if that viewer fits it. */
  lemma ViewerStepKeepsInv(f: Fan, i: nat, v: Viewer, g: Fan)
    requires Inv(f) && i < |f.viewers| && f.viewers[i].live
    requires TrailInv(v, f.history) && ParkInv(v, f)
    requires g == f.(viewers := f.viewers[i := v], consumers := g.consumers)
    requires g.consumers == if v.live || f.consumers == 0 then f.consumers else f.consumers - 1
    ensures Inv(g)
  {
    LiveCountPatch(f.viewers, i, v);
    forall j | 0 <= j < |g.viewers|
      ensures TrailInv(g.viewers[j], g.history) && ParkInv(g.viewers[j], g)
    {
      assert j != i ==> g.viewers[j] == f.viewers[j];
    }
  }

  lemma ReadKeepsInv(f: Fan, bytes: seq<byte>)
    requires Inv(f) && Enabled(f, PumpReads(bytes))
    ensures Inv(Next(f, PumpReads(bytes)))
  {
    AppendTails(f.ring, f.history, bytes);
    forall i | 0 <= i < |f.viewers|
      ensures TrailInv(f.viewers[i], f.history + bytes)
    {
      FaithfulGrows(f.viewers[i].attached, f.viewers[i].trail, f.history, bytes);
    }
  }

  lemma AttachKeepsInv(f: Fan)
    requires Inv(f) && f.opening
    ensures Inv(Next(f, OpenAttaches))
  {
    assert Next(f, OpenAttaches).viewers[..|f.viewers|] == f.viewers;
  }

  lemma WakeKeepsInv(f: Fan)
    requires Inv(f) && Enabled(f, PumpWakes)
    ensures Inv(Next(f, PumpWakes))
  {
    var g := Next(f, PumpWakes);
    forall i | 0 <= i < |g.viewers| ensures TrailInv(g.viewers[i], g.history) && ParkInv(g.viewers[i], g) {
      assert ParkInv(f.viewers[i], f);
    }
  }

  lemma CloseKeepsInv(f: Fan)
    requires Inv(f) && Enabled(f, PumpCloses)
    ensures Inv(Next(f, PumpCloses))
  {
    var g := Next(f, PumpCloses);
    forall i | 0 <= i < |g.viewers| ensures TrailInv(g.viewers[i], g.history) && ParkInv(g.viewers[i], g) {
      assert ParkInv(f.viewers[i], f);
    }
  }

  /** The steps that touch neither the ring, nor the viewers, nor the wakes. */
  lemma QuietStepKeepsInv(f: Fan, s: Step)
    requires Inv(f) && Enabled(f, s)
    requires s.OpenStarts? || s.PumpChecks? || s.PumpEnds? || s.PumpDropsReader?
    ensures Inv(Next(f, s))
  {
    var g := Next(f, s);
    forall i | 0 <= i < |g.viewers| ensures TrailInv(g.viewers[i], g.history) && ParkInv(g.viewers[i], g) {
      assert ParkInv(f.viewers[i], f);
    }
  }

  lemma NextKeepsInv(f: Fan, s: Step)
    requires Inv(f)
    ensures Inv(Next(f, s))
  {
    if Enabled(f, s) {
      match s
      case OpenAttaches => AttachKeepsInv(f);
      case PumpReads(bytes) => ReadKeepsInv(f, bytes);
      case Registers(i) => ViewerStepKeepsInv(f, i, f.viewers[i].Register(f.waves), Next(f, s));
      case Looks(i, room) =>
        LookKeepsTrail(f.viewers[i], f.ring, room, f.history);
        LookKeepsPark(f.viewers[i], f, room);
        ViewerStepKeepsInv(f, i, f.viewers[i].LookedAt(f.ring, room), Next(f, s));
      case Leaves(i) => ViewerStepKeepsInv(f, i, Next(f, s).viewers[i], Next(f, s));
      case PumpWakes => WakeKeepsInv(f);
      case PumpCloses => CloseKeepsInv(f);
      case _ => QuietStepKeepsInv(f, s);
    }
  }

  lemma {:induction false} RunKeepsInv(f: Fan, steps: seq<Step>)
    requires Inv(f)
    ensures Inv(Run(f, steps))
  {
    if steps != [] {
      RunKeepsInv(f, steps[..|steps| - 1]);
      NextKeepsInv(Run(f, steps[..|steps| - 1]), steps[|steps| - 1]);
    }
  }

  // ----- the pump's life -------------------------------------------------------------------------------

  /**
    In every interleaving: the ring is the tail of all that was appended; closed means the reader is already
    gone; the count is the number of viewers attached; a pump that lets go on its own has had a viewer, and
    an until-EOF pump lets go only at the end of its source.
  */
  lemma ThePumpLetsGoInOrder(lifetime: Lifetime, steps: seq<Step>)
    ensures var f := Run(NewFan(lifetime), steps);
            && f.ring.Tails(f.history)
            && (f.ring.closed ==> f.reader.Dropped?)
            && f.consumers == LiveCount(f.viewers)
            && (f.pump.Stopped() ==> f.viewers != [])
            && (lifetime.UntilEof? && f.pump.Stopped() ==> f.sourceEnded)
  {
    RunKeepsInv(NewFan(lifetime), steps);
    LifetimeIsKept(NewFan(lifetime), steps);
  }

  lemma {:induction false} NobodyLiveCountsNone(viewers: seq<Viewer>)
    ensures LiveCount(viewers) == 0 <==> forall i :: 0 <= i < |viewers| ==> !viewers[i].live
  {
    if viewers != [] {
      var n := |viewers| - 1;
      NobodyLiveCountsNone(viewers[..n]);
      assert forall i :: 0 <= i < n ==> viewers[..n][i] == viewers[i];
    }
  }

  /** At the top of its loop, in any interleaving, a pump lets go exactly if it is a watched one and nobody watches. */
  lemma AWatchedPumpStopsExactly(lifetime: Lifetime, steps: seq<Step>)
    requires Enabled(Run(NewFan(lifetime), steps), PumpChecks)
    ensures var f := Run(NewFan(lifetime), steps);
            && (Next(f, PumpChecks).pump.Stopping?
                <==> lifetime.WhileWatched? && forall i :: 0 <= i < |f.viewers| ==> !f.viewers[i].live)
            && (!Next(f, PumpChecks).pump.Stopping? ==> Next(f, PumpChecks).pump.Reading?)
  {
    RunKeepsInv(NewFan(lifetime), steps);
    LifetimeIsKept(NewFan(lifetime), steps);
    NobodyLiveCountsNone(Run(NewFan(lifetime), steps).viewers);
  }

  lemma {:induction false} LifetimeIsKept(f: Fan, steps: seq<Step>)
    ensures Run(f, steps).lifetime == f.lifetime
  {
    if steps != [] {
      LifetimeIsKept(f, steps[..|steps| - 1]);
    }
  }

  /** Once the pump has decided to stop, whatever else happens nothing is appended and it never un-stops. */
  lemma {:induction false} StoppedAppendsNothing(f: Fan, steps: seq<Step>)
    requires Inv(f) && f.pump.Stopped()
    ensures var g := Run(f, steps);
            g.pump.Stopped() && g.history == f.history && (f.ring.closed ==> g.ring.closed)
  {
    hide LookAt, EventsOf, TrailInv;
    if steps != [] {
      StoppedAppendsNothing(f, steps[..|steps| - 1]);
      RunKeepsInv(f, steps[..|steps| - 1]);
    }
  }

  lemma LateStep(f: Fan, s: Step, i: nat)
    requires Inv(f) && f.pump.Stopped() && i < |f.viewers| && f.viewers[i].pos == |f.history|
    ensures var g := Next(f, s); i < |g.viewers| && g.viewers[i].pos == |f.history|
  {
    if Enabled(f, s) && s.Looks? && s.viewer == i {
      LookReadsTheHistory(f.viewers[i].pos, f.viewers[i].lagged, f.ring, s.room, f.history);
    }
  }

  /** A viewer that joins after that decision, before the ring says so, waits at the live edge and reads nothing. */
  lemma {:induction false} ALateJoinerReadsNothing(f: Fan, steps: seq<Step>, i: nat)
    requires Inv(f) && f.pump.Stopped() && i < |f.viewers| && f.viewers[i].pos == |f.history|
    ensures var g := Run(f, steps); i < |g.viewers| && g.viewers[i].pos == |g.history| == |f.history|
  {
    StoppedAppendsNothing(f, steps);
    if steps != [] {
      ALateJoinerReadsNothing(f, steps[..|steps| - 1], i);
      RunKeepsInv(f, steps[..|steps| - 1]);
      StoppedAppendsNothing(f, steps[..|steps| - 1]);
      LateStep(Run(f, steps[..|steps| - 1]), steps[|steps| - 1], i);
    }
  }

  /** A viewer with nothing to read while its pump has not decided to stop. */
  ghost predicate Hopeful(f: Fan, i: nat) {
    Inv(f) && i < |f.viewers| && f.viewers[i].live && f.viewers[i].pos == |f.history| && !f.pump.Stopped()
  }

  lemma {:induction false} ALiveViewerCounts(viewers: seq<Viewer>, i: nat)
    requires i < |viewers| && viewers[i].live
    ensures LiveCount(viewers) > 0
  {
    if i < |viewers| - 1 {
      ALiveViewerCounts(viewers[..|viewers| - 1], i);
    }
  }

  /** One step on, still hopeful. */
  lemma HopeGoesOn(f: Fan, i: nat, s: Step)
    requires Hopeful(f, i) && Enabled(f, s)
    requires s == OpenAttaches || s == PumpWakes || (s == PumpChecks && !f.opening) || s == Looks(i, 1)
    ensures var g := Next(f, s);
            && Hopeful(g, i) && g.history == f.history
            && g.opening == (f.opening && !s.OpenAttaches?)
            && g.viewers[i].stage.Looking? == (f.viewers[i].stage.Looking? && !s.Looks?)
            && g.pump == if s.PumpWakes? then Checking else if s.PumpChecks? then Reading else f.pump
  {
    NextKeepsInv(f, s);
    ALiveViewerCounts(f.viewers, i);
    if s.Looks? {
      LookReadsTheHistory(f.viewers[i].pos, f.viewers[i].lagged, f.ring, 1, f.history);
    }
  }

  /** From any such state the viewer can be left waiting with the pump about to read. */
  lemma {:induction false} ThePumpComesRound(f: Fan, i: nat) returns (steps: seq<Step>)
    requires Hopeful(f, i)
    ensures var g := Run(f, steps);
            Hopeful(g, i) && g.history == f.history && g.pump.Reading? && !g.opening && !g.viewers[i].stage.Looking?
    decreases if f.opening then 1 else 0, if f.viewers[i].stage.Looking? then 1 else 0,
              if f.pump.Appended? then 2 else if f.pump.Checking? then 1 else 0
  {
    hide Next, Hopeful;
    HopeIsRunning(f, i);
    var s :=
      if f.opening then Some(OpenAttaches)
      else if f.viewers[i].stage.Looking? then Some(Looks(i, 1))
      else if f.pump.Appended? then Some(PumpWakes)
      else if f.pump.Checking? then Some(PumpChecks)
      else None;
    steps := [];
    if s.Some? {
      HopeGoesOn(f, i, s.value);
      steps := ThePumpComesRound(Next(f, s.value), i);
      RunOne(f, [], s.value);
      assert [] + [s.value] == [s.value];
      RunMore(f, [s.value], steps);
      steps := [s.value] + steps;
    }
  }

  lemma HopeIsRunning(f: Fan, i: nat)
    requires Hopeful(f, i)
    ensures f.reader.Pumped? && (f.pump.Checking? || f.pump.Reading? || f.pump.Appended?)
    ensures i < |f.viewers| && f.viewers[i].live
  {}

  /** While its pump has not decided to stop, a viewer at the live edge may yet read: the source may give a byte. */
  lemma AViewerMayYetRead(f: Fan, i: nat) returns (steps: seq<Step>)
    requires Hopeful(f, i)
    ensures var g := Run(f, steps); i < |g.viewers| && g.viewers[i].pos == |f.history| + 1
  {
    hide Next, Run;
    steps := ThePumpComesRound(f, i);
    var g, last := Run(f, steps), [PumpReads([0]), Registers(i), Looks(i, 1)];
    ThreeSteps(g, last[0], last[1], last[2]);
    AByteArrives(g, i);
    RunMore(f, steps, last);
    steps := steps + last;
  }

  lemma AByteArrives(f: Fan, i: nat)
    requires Hopeful(f, i) && f.pump.Reading? && !f.viewers[i].stage.Looking?
    ensures var g := Next(Next(Next(f, PumpReads([0])), Registers(i)), Looks(i, 1));
            i < |g.viewers| && g.viewers[i].pos == |f.history| + 1
  {
    var read := Next(f, PumpReads([0]));
    NextKeepsInv(f, PumpReads([0]));
    APassIsTwoSteps(read, i, 1);
    LookReadsTheHistory(read.viewers[i].pos, read.viewers[i].lagged, read.ring, 1, read.history);
  }

  /** A viewer at the live edge will read nothing, whatever comes, exactly when the pump has decided to stop. */
  lemma ReadsNothingExactly(f: Fan, i: nat)
    requires Inv(f) && i < |f.viewers| && f.viewers[i].live && f.viewers[i].pos == |f.history|
    ensures f.pump.Stopped()
       <==> forall steps :: var g := Run(f, steps); i < |g.viewers| && g.viewers[i].pos == |f.history|
  {
    if f.pump.Stopped() {
      forall steps ensures var g := Run(f, steps); i < |g.viewers| && g.viewers[i].pos == |f.history| {
        ALateJoinerReadsNothing(f, steps, i);
      }
    } else {
      var steps := AViewerMayYetRead(f, i);
      assert Run(f, steps).viewers[i].pos != |f.history|;
    }
  }

  /** So an `open` hands out a cursor that can only ever read nothing exactly when it counts it after that decision. */
  lemma AJoinerReadsNothingExactly(f: Fan, joined: Fan, i: nat)
    requires Inv(f) && f.opening && joined == Next(f, OpenAttaches) && i == |f.viewers|
    ensures f.pump.Stopped()
       <==> forall steps :: var g := Run(joined, steps); i < |g.viewers| && g.viewers[i].pos == |f.history|
  {
    NextKeepsInv(f, OpenAttaches);
    ReadsNothingExactly(joined, i);
  }

  /** Such a joiner exists: `open` reads `closed`, which the pump sets only after it has let go of the reader. */
  lemma OpenCanMissTheStop()
    ensures exists steps :: var f := Run(NewFan(WhileWatched), steps);
                            |f.viewers| == 2 && f.viewers[1].live && f.pump.Stopping?
  {
    var s := [OpenStarts, OpenAttaches, Leaves(0), PumpChecks, OpenStarts, OpenAttaches];
    var f := NewFan(WhileWatched);
    var f1 := Next(f, s[0]);
    var f2 := Next(f1, s[1]);
    var f3 := Next(f2, s[2]);
    var f4 := Next(f3, s[3]);
    assert f4.pump.Stopping?;
    var f6 := Next(Next(f4, s[4]), s[5]);
    assert Run(f, s[..1]) == f1 by { assert s[..1][..0] == []; }
    assert Run(f, s[..2]) == f2 by { assert s[..2][..1] == s[..1]; }
    assert Run(f, s[..3]) == f3 by { assert s[..3][..2] == s[..2]; }
    assert Run(f, s[..4]) == f4 by { assert s[..4][..3] == s[..3]; }
    assert Run(f, s[..5]) == Next(f4, s[4]) by { assert s[..5][..4] == s[..4]; }
    assert Run(f, s) == f6;
  }

  /** A parked viewer with anything to see has had its wake, or the pump's next move is to send it. */
  lemma NoWakeIsLost(lifetime: Lifetime, steps: seq<Step>, i: nat)
    ensures var f := Run(NewFan(lifetime), steps);
            i < |f.viewers| && f.viewers[i].stage.Pending? && (f.viewers[i].pos < |f.history| || f.ring.closed)
            ==> f.viewers[i].parked.Some?
                && (f.viewers[i].parked.value < f.waves || f.pump.Appended? || f.pump.Closed?)
  {
    RunKeepsInv(NewFan(lifetime), steps);
  }

  // ----- what each viewer gets -------------------------------------------------------------------------

  function GotBytes(trail: seq<Event>): nat {
    if trail == [] then 0
    else GotBytes(trail[..|trail| - 1]) + (match trail[|trail| - 1] case Got(_, bytes) => |bytes| case _ => 0)
  }

  function LostBytes(trail: seq<Event>): nat {
    if trail == [] then 0
    else LostBytes(trail[..|trail| - 1]) + (match trail[|trail| - 1] case Lost(_, n, _) => n case _ => 0)
  }

  function LoggedBytes(trail: seq<Event>): nat {
    if trail == [] then 0
    else LoggedBytes(trail[..|trail| - 1])
         + (match trail[|trail| - 1] case Lost(_, n, warned) => (if warned then n else 0) case _ => 0)
  }

  lemma {:induction false} ReachAddsUp(attached: nat, trail: seq<Event>)
    ensures Reach(attached, trail) == attached + GotBytes(trail) + LostBytes(trail)
  {
    if trail != [] {
      ReachAddsUp(attached, trail[..|trail| - 1]);
    }
  }

  /** Event `k` of a faithful trail starts where the `k` before it reached, and its bytes are the history's. */
  lemma {:induction false} EventAt(attached: nat, trail: seq<Event>, history: seq<byte>, k: nat)
    requires Faithful(attached, trail, history) && k < |trail|
    ensures match trail[k]
            case Got(from, bytes) =>
              && from == Reach(attached, trail[..k]) && from + |bytes| == Reach(attached, trail[..k + 1])
              && from + |bytes| <= |history| && bytes == history[from..from + |bytes|]
            case Lost(from, count, _) =>
              from == Reach(attached, trail[..k]) && from + count == Reach(attached, trail[..k + 1])
            case _ => true
  {
    var n := |trail| - 1;
    if k < n {
      EventAt(attached, trail[..n], history, k);
      assert trail[..n][..k] == trail[..k] && trail[..n][..k + 1] == trail[..k + 1];
    } else {
      assert trail[..k + 1] == trail;
    }
  }

  lemma {:induction false} ReachOnlyAdvances(attached: nat, trail: seq<Event>, i: nat, j: nat)
    requires i <= j <= |trail|
    ensures Reach(attached, trail[..i]) <= Reach(attached, trail[..j])
  {
    if i < j {
      ReachOnlyAdvances(attached, trail, i, j - 1);
      assert trail[..j][..j - 1] == trail[..j - 1];
    }
  }

  /** Piece `k` lies between where the viewer attached and where it stands, and is the source's bytes there. */
  ghost predicate PieceFits(v: Viewer, history: seq<byte>, k: nat)
    requires k < |v.trail| && v.trail[k].Got?
  {
    var at, end := v.trail[k].from, v.trail[k].from + |v.trail[k].bytes|;
    v.attached <= at && end <= v.pos <= |history| && v.trail[k].bytes == history[at..end]
  }

  lemma APieceFits(v: Viewer, history: seq<byte>, k: nat)
    requires TrailInv(v, history) && k < |v.trail| && v.trail[k].Got?
    ensures PieceFits(v, history, k)
  {
    EventAt(v.attached, v.trail, history, k);
    ReachOnlyAdvances(v.attached, v.trail, 0, k);
    ReachOnlyAdvances(v.attached, v.trail, k + 1, |v.trail|);
    assert v.trail[..|v.trail|] == v.trail;
  }

  /**
    Over a whole run: what a viewer got and what it lost account for every byte from where it attached to
    where it stands, and each piece it got is the source's bytes at that offset, after every earlier piece.
  */
  lemma EveryByteIsAccountedFor(lifetime: Lifetime, steps: seq<Step>, i: nat)
    requires i < |Run(NewFan(lifetime), steps).viewers|
    ensures var f := Run(NewFan(lifetime), steps); var v := f.viewers[i];
            && GotBytes(v.trail) + LostBytes(v.trail) == v.pos - v.attached
            && (forall k :: 0 <= k < |v.trail| && v.trail[k].Got? ==> PieceFits(v, f.history, k))
            && (forall k, l :: 0 <= k < l < |v.trail| && v.trail[k].Got? && v.trail[l].Got? ==>
                  v.trail[k].from + |v.trail[k].bytes| <= v.trail[l].from)
  {
    RunKeepsInv(NewFan(lifetime), steps);
    var f := Run(NewFan(lifetime), steps);
    var v := f.viewers[i];
    assert TrailInv(v, f.history);
    ReachAddsUp(v.attached, v.trail);
    forall k | 0 <= k < |v.trail| && v.trail[k].Got?
      ensures PieceFits(v, f.history, k)
    {
      APieceFits(v, f.history, k);
    }
    forall k, l | 0 <= k < l < |v.trail| && v.trail[k].Got? && v.trail[l].Got?
      ensures v.trail[k].from + |v.trail[k].bytes| <= v.trail[l].from
    {
      EventAt(v.attached, v.trail, f.history, k);
      EventAt(v.attached, v.trail, f.history, l);
      ReachOnlyAdvances(v.attached, v.trail, k + 1, l);
    }
  }

  lemma {:induction false} EpisodeMeaning(trail: seq<Event>)
    ensures InEpisode(trail) <==> exists i :: 0 <= i < |trail| && trail[i].Lost?
                                              && forall k :: i < k < |trail| ==> !trail[k].Edge?
  {
    if trail != [] {
      var n := |trail| - 1;
      EpisodeMeaning(trail[..n]);
      if InEpisode(trail) && !trail[n].Lost? {
        var i :| 0 <= i < n && trail[..n][i].Lost? && forall k :: i < k < n ==> !trail[..n][k].Edge?;
        assert trail[i].Lost? && forall k :: i < k < |trail| ==> !trail[k].Edge?;
      }
      if i :| 0 <= i < |trail| && trail[i].Lost? && forall k :: i < k < |trail| ==> !trail[k].Edge? {
        if i < n {
          assert trail[..n][i].Lost? && forall k :: i < k < n ==> !trail[..n][k].Edge?;
        }
      }
    }
  }

  lemma {:induction false} LoggedMeaning(trail: seq<Event>, j: nat)
    requires LoggedOnce(trail) && j < |trail| && trail[j].Lost?
    ensures trail[j].warned <==> !InEpisode(trail[..j])
  {
    var n := |trail| - 1;
    if j < n {
      LoggedMeaning(trail[..n], j);
      assert trail[..n][..j] == trail[..j];
    }
  }

  /**
    A loss is logged exactly when the viewer has stood at the live edge since its every earlier loss. So two
    log lines always have a visit to the live edge between them.
  */
  lemma OneLogLineAnEpisode(lifetime: Lifetime, steps: seq<Step>, i: nat, j: nat)
    requires i < |Run(NewFan(lifetime), steps).viewers|
    requires j < |Run(NewFan(lifetime), steps).viewers[i].trail|
    requires Run(NewFan(lifetime), steps).viewers[i].trail[j].Lost?
    ensures var t := Run(NewFan(lifetime), steps).viewers[i].trail;
            t[j].warned <==> forall h :: 0 <= h < j && t[h].Lost? ==> exists k :: h < k < j && t[k].Edge?
  {
    RunKeepsInv(NewFan(lifetime), steps);
    var f := Run(NewFan(lifetime), steps);
    assert TrailInv(f.viewers[i], f.history);
    var t := f.viewers[i].trail;
    LoggedMeaning(t, j);
    EpisodeMeaning(t[..j]);
    if InEpisode(t[..j]) {
      var h :| 0 <= h < j && t[..j][h].Lost? && forall k :: h < k < j ==> !t[..j][k].Edge?;
      assert t[h].Lost? && forall k :: h < k < j ==> t[k] == t[..j][k];
    } else {
      forall h | 0 <= h < j && t[h].Lost?
        ensures exists k :: h < k < j && t[k].Edge?
      {
        assert t[..j][h].Lost?;
        var k :| h < k < j && t[..j][k].Edge?;
        assert t[k].Edge?;
      }
    }
  }

  lemma {:induction false} LoggedIsPartOfLost(trail: seq<Event>)
    ensures LoggedBytes(trail) <= LostBytes(trail)
  {
    if trail != [] {
      LoggedIsPartOfLost(trail[..|trail| - 1]);
    }
  }

  lemma {:induction false} TheLogCountsFirstGaps(attached: nat, trail: seq<Event>, history: seq<byte>)
    requires Faithful(attached, trail, history)
    ensures LoggedBytes(trail) == LostBytes(trail)
            <==> forall j :: 0 <= j < |trail| && trail[j].Lost? ==> trail[j].warned
  {
    if trail != [] {
      var n := |trail| - 1;
      LoggedIsPartOfLost(trail[..n]);
      TheLogCountsFirstGaps(attached, trail[..n], history);
      assert forall j :: 0 <= j < n ==> trail[..n][j] == trail[j];
    }
  }

  /** Between any two of a viewer's losses it has stood at the live edge. */
  ghost predicate NoEpisodeLosesTwice(t: seq<Event>) {
    forall h, j :: 0 <= h < j < |t| && t[h].Lost? && t[j].Lost? ==> exists k :: h < k < j && t[k].Edge?
  }

  /** Over any run the log never overstates the loss, and states all of it exactly when no episode loses twice. */
  lemma TheLogIsWholeExactly(lifetime: Lifetime, steps: seq<Step>, i: nat)
    requires i < |Run(NewFan(lifetime), steps).viewers|
    ensures var t := Run(NewFan(lifetime), steps).viewers[i].trail;
            && LoggedBytes(t) <= LostBytes(t)
            && (LoggedBytes(t) == LostBytes(t) <==> NoEpisodeLosesTwice(t))
  {
    RunKeepsInv(NewFan(lifetime), steps);
    var f := Run(NewFan(lifetime), steps);
    assert TrailInv(f.viewers[i], f.history);
    var t := f.viewers[i].trail;
    LoggedIsPartOfLost(t);
    TheLogCountsFirstGaps(f.viewers[i].attached, t, f.history);
    forall j | 0 <= j < |t| && t[j].Lost?
      ensures t[j].warned <==> forall h :: 0 <= h < j && t[h].Lost? ==> exists k :: h < k < j && t[k].Edge?
    {
      OneLogLineAnEpisode(lifetime, steps, i, j);
    }
  }

  lemma {:induction false} RunMore(f: Fan, steps: seq<Step>, more: seq<Step>)
    ensures Run(f, steps + more) == Run(Run(f, steps), more)
  {
    hide Next;
    if more == [] {
      assert steps + more == steps;
    } else {
      var n := |more| - 1;
      RunMore(f, steps, more[..n]);
      assert (steps + more)[..|steps| + n] == steps + more[..n];
    }
  }

  /** `n` turns of the pump, each a full chunk. */
  function FullReads(n: nat): seq<Step> {
    if n == 0 then [] else FullReads(n - 1) + [PumpChecks, PumpReads(seq(PUMP_CHUNK, _ => 0)), PumpWakes]
  }

  lemma TwoSteps(f: Fan, a: Step, b: Step)
    ensures Run(f, [a, b]) == Next(Next(f, a), b)
  {
    hide Next;
    RunOne(f, [], a);
    RunOne(f, [a], b);
    assert [] + [a] == [a] && [a] + [b] == [a, b];
  }

  lemma ThreeSteps(f: Fan, a: Step, b: Step, c: Step)
    ensures Run(f, [a, b, c]) == Next(Next(Next(f, a), b), c)
  {
    hide Next;
    TwoSteps(f, a, b);
    RunOne(f, [a, b], c);
    assert [a, b] + [c] == [a, b, c];
  }

  /** `g` is `f` after its pump has appended `n` full chunks. */
  ghost predicate ReadOn(f: Fan, g: Fan, n: nat) {
    && g == f.(ring := g.ring, history := g.history, waves := f.waves + n)
    && g.ring.Tails(g.history) && |g.history| == |f.history| + n * PUMP_CHUNK
    && g.ring.closed == f.ring.closed
  }

  predicate Pumping(f: Fan) { f.lifetime.UntilEof? && f.pump.Checking? && f.reader.Pumped? && !f.opening }

  lemma OneFullRead(f: Fan)
    requires Pumping(f) && f.ring.Tails(f.history)
    ensures ReadOn(f, Run(f, [PumpChecks, PumpReads(seq(PUMP_CHUNK, _ => 0)), PumpWakes]), 1)
  {
    var chunk := seq(PUMP_CHUNK, _ => 0);
    ThreeSteps(f, PumpChecks, PumpReads(chunk), PumpWakes);
    AppendTails(f.ring, f.history, chunk);
  }

  lemma {:induction false} FullReadsRun(f: Fan, n: nat)
    requires Pumping(f) && f.ring.Tails(f.history)
    ensures ReadOn(f, Run(f, FullReads(n)), n)
  {
    if n > 0 {
      hide Run;
      FullReadsRun(f, n - 1);
      RunMore(f, FullReads(n - 1), [PumpChecks, PumpReads(seq(PUMP_CHUNK, _ => 0)), PumpWakes]);
      OneFullRead(Run(f, FullReads(n - 1)));
    }
  }

  lemma CountOne(trail: seq<Event>, e: Event)
    ensures LostBytes(trail + [e]) == LostBytes(trail) + if e.Lost? then e.count else 0
    ensures LoggedBytes(trail + [e]) == LoggedBytes(trail) + if e.Lost? && e.warned then e.count else 0
  {
    assert (trail + [e])[..|trail|] == trail;
  }

  /** A lone viewer `n` bytes past the ring's reach loses them, reads one byte, and is left behind the live edge. */
  lemma LappedLook(f: Fan, n: nat)
    requires |f.viewers| == 1 && f.viewers[0].live && !f.viewers[0].stage.Looking?
    requires f.ring.Tails(f.history) && |f.history| == f.viewers[0].pos + RING_BYTES + n && n > 0
    ensures var g, v := Run(f, [Registers(0), Looks(0, 1)]), f.viewers[0];
            && |g.viewers| == 1 && g == f.(viewers := g.viewers)
            && g.viewers[0].pos == v.pos + n + 1 && g.viewers[0].lagged
            && g.viewers[0].live && g.viewers[0].stage.Resting?
            && LostBytes(g.viewers[0].trail) == LostBytes(v.trail) + n
            && LoggedBytes(g.viewers[0].trail) == LoggedBytes(v.trail) + if v.lagged then 0 else n
  {
    hide Next, Run, LostBytes, LoggedBytes, Viewer.Register, Viewer.LookedAt;
    TwoSteps(f, Registers(0), Looks(0, 1));
    APassIsTwoSteps(f, 0, 1);
    LappedViewer(f.viewers[0], f.viewers[0].Register(f.waves), f.ring, f.history, n);
  }

  lemma LappedViewer(v: Viewer, r: Viewer, ring: RingState, history: seq<byte>, n: nat)
    requires r == v.(parked := r.parked, stage := r.stage) && r.stage.Looking?
    requires ring.Tails(history) && |history| == v.pos + RING_BYTES + n && n > 0
    ensures var w := r.LookedAt(ring, 1);
            && w.pos == v.pos + n + 1 && w.lagged && w.live == v.live && w.stage.Resting?
            && LostBytes(w.trail) == LostBytes(v.trail) + n
            && LoggedBytes(w.trail) == LoggedBytes(v.trail) + if v.lagged then 0 else n
  {
    var look := LookAt(v.pos, v.lagged, ring, 1);
    LookReadsTheHistory(v.pos, v.lagged, ring, 1, history);
    var lost, got := Lost(v.pos, n, !v.lagged), Got(v.pos + n, look.seen.bytes);
    CountOne(v.trail, lost);
    CountOne(v.trail + [lost], got);
    assert EventsOf(v.pos, look, ring.Head()) == [lost, got];
    assert v.trail + [lost, got] == v.trail + [lost] + [got];
  }

  /** It can understate it: a viewer lapped again before it has caught up loses bytes no line reports. */
  lemma TheLogCanUnderstate()
    ensures exists steps :: var f := Run(NewFan(UntilEof), steps);
              && |f.viewers| == 1
              && LoggedBytes(f.viewers[0].trail) == 0x1_0000 && LostBytes(f.viewers[0].trail) == 0x1_FFFF
  {
    hide Next, Run, FullReads, LostBytes, LoggedBytes;
    var f, s := AWatchedStart();
    var look := [Registers(0), Looks(0, 1)];
    FullReadsRun(f, 17);
    RunMore(NewFan(UntilEof), s, FullReads(17));
    f, s := Run(f, FullReads(17)), s + FullReads(17);
    LappedLook(f, 0x1_0000);
    RunMore(NewFan(UntilEof), s, look);
    f, s := Run(f, look), s + look;
    FullReadsRun(f, 1);
    RunMore(NewFan(UntilEof), s, FullReads(1));
    f, s := Run(f, FullReads(1)), s + FullReads(1);
    LappedLook(f, 0xFFFF);
    RunMore(NewFan(UntilEof), s, look);
    f, s := Run(f, look), s + look;
    assert f == Run(NewFan(UntilEof), s);
  }

  lemma AWatchedStart() returns (f: Fan, steps: seq<Step>)
    ensures f == Run(NewFan(UntilEof), steps)
    ensures f == NewFan(UntilEof).(reader := Pumped, pump := Checking, consumers := 1, viewers := [NewViewer(0)])
    ensures LostBytes(NewViewer(0).trail) == 0 && LoggedBytes(NewViewer(0).trail) == 0
  {
    steps := [OpenStarts, OpenAttaches];
    f := Run(NewFan(UntilEof), steps);
    TwoSteps(NewFan(UntilEof), OpenStarts, OpenAttaches);
  }

  /** One viewer's step, which reads the shared state and writes only its own viewer, and the count if it leaves. */
  function OwnStep(f: Fan, s: Step): (Viewer, nat)
    requires (s.Registers? || s.Looks? || s.Leaves?) && s.viewer < |f.viewers|
  {
    var v := f.viewers[s.viewer];
    if !Enabled(f, s) then (v, 0)
    else match s
      case Registers(_) => (v.Register(f.waves), 0)
      case Looks(_, room) => (v.LookedAt(f.ring, room), 0)
      case _ => (v.(live := false, parked := None, stage := Resting), 1)
  }

  lemma NextIsOwnStep(f: Fan, s: Step)
    requires (s.Registers? || s.Looks? || s.Leaves?) && s.viewer < |f.viewers|
    ensures var (v, left) := OwnStep(f, s);
            Next(f, s) == f.(viewers := f.viewers[s.viewer := v],
                             consumers := if f.consumers > left then f.consumers - left
                                          else if left == 0 then f.consumers else 0)
  {
    assert f.viewers == f.viewers[s.viewer := f.viewers[s.viewer]];
  }

  lemma OwnStepIsOwn(f: Fan, a: Step, b: Step)
    requires a.Registers? || a.Looks? || a.Leaves?
    requires b.Registers? || b.Looks? || b.Leaves?
    requires a.viewer != b.viewer && a.viewer < |f.viewers| && b.viewer < |f.viewers|
    ensures OwnStep(Next(f, a), b) == OwnStep(f, b)
  {
    NextIsOwnStep(f, a);
  }

  /** One viewer's steps change neither the ring nor another viewer, so two viewers' steps commute. */
  lemma ViewersAreIndependent(f: Fan, a: Step, b: Step)
    requires a.Registers? || a.Looks? || a.Leaves?
    requires b.Registers? || b.Looks? || b.Leaves?
    requires a.viewer != b.viewer && a.viewer < |f.viewers| && b.viewer < |f.viewers|
    ensures var g := Next(f, a);
            && g == f.(viewers := g.viewers, consumers := g.consumers)
            && g.viewers == f.viewers[a.viewer := g.viewers[a.viewer]]
            && g.viewers[a.viewer] == Next(Next(f, b), a).viewers[a.viewer]
            && Next(g, b) == Next(Next(f, b), a)
  {
    var fa, fb := Next(f, a), Next(f, b);
    NextIsOwnStep(f, a);
    NextIsOwnStep(f, b);
    NextIsOwnStep(fa, b);
    NextIsOwnStep(fb, a);
    OwnStepIsOwn(f, a, b);
    OwnStepIsOwn(f, b, a);
    var v, u := OwnStep(f, a).0, OwnStep(f, b).0;
    assert f.viewers[a.viewer := v][b.viewer := u] == f.viewers[b.viewer := u][a.viewer := v];
  }

  /** A step that viewer `i` takes towards a read. */
  predicate ReadsFor(s: Step, i: nat) { (s.Registers? || s.Looks?) && s.viewer == i }

  /** The run without them. */
  function Without(steps: seq<Step>, i: nat): seq<Step> {
    if steps == [] then []
    else
      var n := |steps| - 1;
      if ReadsFor(steps[n], i) then Without(steps[..n], i) else Without(steps[..n], i) + [steps[n]]
  }

  /** `f` and `g` agree on all but what viewer `i` has read. */
  ghost predicate ApartFrom(f: Fan, g: Fan, i: nat) {
    && g == f.(viewers := g.viewers) && |g.viewers| == |f.viewers|
    && (forall k :: 0 <= k < |f.viewers| && k != i ==> g.viewers[k] == f.viewers[k])
    && (i < |f.viewers| ==> g.viewers[i].live == f.viewers[i].live)
  }

  lemma AStepApart(f: Fan, g: Fan, s: Step, i: nat)
    requires ApartFrom(f, g, i)
    ensures ApartFrom(Next(f, s), if ReadsFor(s, i) then g else Next(g, s), i)
  {
    hide LookAt, EventsOf;
    if (s.Registers? || s.Looks? || s.Leaves?) && s.viewer < |f.viewers| {
      AnOwnStepApart(f, g, s, i);
    }
  }

  lemma AnOwnStepApart(f: Fan, g: Fan, s: Step, i: nat)
    requires ApartFrom(f, g, i) && (s.Registers? || s.Looks? || s.Leaves?) && s.viewer < |f.viewers|
    ensures ApartFrom(Next(f, s), if ReadsFor(s, i) then g else Next(g, s), i)
  {
    NextIsOwnStep(f, s);
    NextIsOwnStep(g, s);
    hide Next, LookAt, EventsOf, Viewer.LookedAt, Viewer.Register;
    LookingLeavesTheRest(f.viewers[s.viewer], f, s);
    LookingLeavesTheRest(g.viewers[s.viewer], g, s);
  }

  /** Polling leaves whether a viewer is there at all alone. */
  lemma LookingLeavesTheRest(v: Viewer, f: Fan, s: Step)
    ensures v.Register(f.waves).live == v.live
    ensures s.Looks? && v.stage.Looking? ==> v.LookedAt(f.ring, s.room).live == v.live
  {
    hide LookAt, EventsOf;
  }

  /**
    However often a viewer polls, and whatever it reads or loses, over any run the ring, the pump, the count and every
    other viewer are as they would be had it never polled at all.
  */
  lemma {:induction false} AViewerHoldsUpNobody(f: Fan, steps: seq<Step>, i: nat)
    ensures ApartFrom(Run(f, steps), Run(f, Without(steps, i)), i)
  {
    hide Next;
    if steps != [] {
      var n := |steps| - 1;
      AViewerHoldsUpNobody(f, steps[..n], i);
      AStepApart(Run(f, steps[..n]), Run(f, Without(steps[..n], i)), steps[n], i);
      if !ReadsFor(steps[n], i) {
        RunOne(f, Without(steps[..n], i), steps[n]);
      }
    }
  }
}
