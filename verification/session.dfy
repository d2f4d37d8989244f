/**
  One accepted session (src/tunnel/exposer.rs:557-628): the loop that takes streams, drives the ones in flight
  and re-checks the session on every sweep, with the record of src/tunnel/cut.rs filled in by the streams.
*/
module Sessions {
  import opened Wrappers
  import opened LiveCut

  const MAX_STREAMS_PER_SESSION: nat := 256

  /** How a stream got past every refusal: on caps ruled for the session's peer, or on a proven-only route. */
  datatype Ruling = OnCaps(ruled: seq<Cap>) | OnProof

  datatype Event =
    | StreamArrives
    | AcceptFails
    | StreamRecords(pipe: nat, ruling: Ruling)
    | PipeEnds(pipe: nat)
    | Sweeps(oracle: Oracle, now: Time)

  datatype Fate = Running | Drained | WasCut(why: Cut)

  /** `pipes` are the streams in flight, by the order they arrived; `asked` those that reached the record. */
  datatype State = State(key: Key, accepting: bool, arrived: nat, pipes: set<nat>, asked: set<nat>,
                         record: Record, served: seq<Stream>, fate: Fate)

  function Start(key: Key): State { State(key, true, 0, {}, {}, EMPTY, [], Running) }

  function StreamOf(key: Key, ruling: Ruling): Stream {
    match ruling
    case OnCaps(ruled) => Ruled(key, ruled)
    case OnProof => ProvenBy(key)
  }

  /** Which arms the loop polls. Once neither streams nor pipes are left the sweep arm goes quiet too. */
  predicate Polled(accepting: bool, pipes: set<nat>, asked: set<nat>, event: Event) {
    match event
    case StreamArrives => accepting && |pipes| < MAX_STREAMS_PER_SESSION
    case AcceptFails => accepting && |pipes| < MAX_STREAMS_PER_SESSION
    case StreamRecords(pipe, _) => pipe in pipes && pipe !in asked
    case PipeEnds(pipe) => pipe in pipes
    case Sweeps(_, _) => accepting || pipes != {}
  }

  predicate Enabled(s: State, event: Event) {
    s.fate.Running? && Polled(s.accepting, s.pipes, s.asked, event)
  }

  /** With every arm quiet the loop is over. */
  function Settle(s: State): State {
    if s.fate.Running? && !s.accepting && s.pipes == {} then s.(fate := Drained) else s
  }

  function Step(s: State, event: Event): State {
    if !Enabled(s, event) then s
    else Settle(
      match event
      case StreamArrives => s.(arrived := s.arrived + 1, pipes := s.pipes + {s.arrived})
      case AcceptFails => s.(accepting := false)
      case StreamRecords(pipe, ruling) =>
        var stream := StreamOf(s.key, ruling);
        (match Keep(s.record, stream)
         case Success(kept) => s.(asked := s.asked + {pipe}, record := kept, served := s.served + [stream])
         case Failure(_) => s.(asked := s.asked + {pipe}))
      case PipeEnds(pipe) => s.(pipes := s.pipes - {pipe})
      case Sweeps(oracle, now) =>
        match Verdict(oracle, s.record, now)
        case Some(why) => s.(pipes := {}, fate := WasCut(why))
        case None => s)
  }

  function Run(s: State, events: seq<Event>): State {
    if events == [] then s else Step(Run(s, events[..|events| - 1]), events[|events| - 1])
  }

  class Session {
    const key: Key
    var accepting: bool
    var arrived: nat
    var pipes: set<nat>
    var asked: set<nat>
    const chains: AdmittedChains
    ghost var served: seq<Stream>
    var fate: Fate

    ghost function Now(): State
      reads this, chains
    {
      State(key, accepting, arrived, pipes, asked, chains.State(), served, fate)
    }

    constructor (key: Key)
      ensures Now() == Start(key) && fresh(chains)
    {
      this.key := key;
      accepting, arrived, pipes, asked, fate := true, 0, {}, {}, Running;
      served := [];
      chains := new AdmittedChains();
    }

    /** A stream past every other refusal asks for its place in the record. */
    method Records(pipe: nat, ruling: Ruling)
      requires |chains.ids| <= MAX_SESSION_CHAIN_IDS
      requires Enabled(Now(), StreamRecords(pipe, ruling)) && (accepting || pipes != {})
      modifies this`asked, this`served, chains
      ensures Now() == Step(old(Now()), StreamRecords(pipe, ruling))
      ensures |chains.ids| <= MAX_SESSION_CHAIN_IDS
    {
      asked := asked + {pipe};
      match ruling {
        case OnCaps(ruled) =>
          var kept := chains.RecordAll(key, ruled);
          if kept.Success? {
            served := served + [Ruled(key, ruled)];
          }
        case OnProof =>
          chains.RecordProven(key);
          served := served + [ProvenBy(key)];
      }
    }

    /** One turn of the loop, for whichever arm became ready. */
    method Turn(event: Event)
      requires |chains.ids| <= MAX_SESSION_CHAIN_IDS
      requires Enabled(Now(), event) && (accepting || pipes != {})
      modifies this, chains
      ensures Now() == Step(old(Now()), event)
      ensures |chains.ids| <= MAX_SESSION_CHAIN_IDS
    {
      match event {
        case StreamArrives =>
          pipes := pipes + {arrived};
          arrived := arrived + 1;
        case AcceptFails =>
          accepting := false;
        case StreamRecords(pipe, ruling) =>
          Records(pipe, ruling);
        case PipeEnds(pipe) =>
          pipes := pipes - {pipe};
        case Sweeps(oracle, now) =>
          var verdict := Verdict(oracle, chains.State(), now);
          if verdict.Some? {
            pipes := {};
            fate := WasCut(verdict.value);
          }
      }
      if fate.Running? && !accepting && pipes == {} {
        fate := Drained;
      }
    }

    /** The loop: take what happens while the session lasts, and pass over what no arm is polling for. */
    method Serve(events: seq<Event>)
      requires |chains.ids| <= MAX_SESSION_CHAIN_IDS
      requires fate.Running? ==> accepting || pipes != {}
      modifies this, chains
      ensures Now() == Run(old(Now()), events)
    {
      var i := 0;
      while i < |events|
        invariant 0 <= i <= |events|
        invariant |chains.ids| <= MAX_SESSION_CHAIN_IDS
        invariant fate.Running? ==> accepting || pipes != {}
        invariant Now() == Run(old(Now()), events[..i])
      {
        assert events[..i + 1][..i] == events[..i];
        if fate.Running? && Polled(accepting, pipes, asked, events[i]) {
          Turn(events[i]);
        }
        i := i + 1;
      }
      assert events[..i] == events;
    }
  }

  // ----- what holds over every run ---------------------------------------------------------------------

  /** A session lasts while it has streams to take or in flight; its record is the union of what it serves. */
  ghost predicate Inv(s: State) {
    && |s.pipes| <= MAX_STREAMS_PER_SESSION
    && (forall pipe :: pipe in s.pipes ==> pipe < s.arrived)
    && (forall pipe :: pipe in s.asked ==> pipe < s.arrived)
    && (s.fate.Running? ==> s.accepting || s.pipes != {})
    && (!s.fate.Running? ==> s.pipes == {})
    && (s.fate.Drained? ==> !s.accepting)
    && IsUnion(s.record, s.served)
    && OneKey(s.served, s.key)
  }

  lemma StepKeepsInv(s: State, event: Event)
    requires Inv(s)
    ensures Inv(Step(s, event))
  {
    if Enabled(s, event) && event.StreamRecords? {
      RecordingKeepsInv(s, event.pipe, event.ruling);
    } else if Enabled(s, event) && !event.Sweeps? {
      PipesKeepInv(s, event);
    }
  }

  lemma RecordingKeepsInv(s: State, pipe: nat, ruling: Ruling)
    requires Inv(s) && Enabled(s, StreamRecords(pipe, ruling))
    ensures Inv(Step(s, StreamRecords(pipe, ruling)))
  {
    var stream := StreamOf(s.key, ruling);
    if Keep(s.record, stream).Success? {
      KeepingAddsExactlyThisStream(s.record, s.served, stream);
    }
  }

  lemma PipesKeepInv(s: State, event: Event)
    requires Inv(s) && Enabled(s, event) && (event.StreamArrives? || event.AcceptFails? || event.PipeEnds?)
    ensures Inv(Step(s, event))
  {
    var after := Step(s, event);
    assert after.record == s.record && after.served == s.served && after.asked == s.asked;
  }

  lemma {:induction false} RunKeepsInv(key: Key, events: seq<Event>)
    ensures Inv(Run(Start(key), events)) && Run(Start(key), events).key == key
  {
    if events != [] {
      RunKeepsInv(key, events[..|events| - 1]);
      StepKeepsInv(Run(Start(key), events[..|events| - 1]), events[|events| - 1]);
    }
  }

  /** What a stream's asking for its place does to the loop. */
  lemma AskingMeans(s: State, pipe: nat, ruling: Ruling)
    requires Enabled(s, StreamRecords(pipe, ruling))
    ensures var t, kept := Step(s, StreamRecords(pipe, ruling)), Keep(s.record, StreamOf(s.key, ruling));
            && t.key == s.key && t.asked == s.asked + {pipe}
            && t.served == (if kept.Success? then s.served + [StreamOf(s.key, ruling)] else s.served)
            && t.record == (if kept.Success? then kept.value else s.record)
  {
  }

  /** Only such an asking reaches the record. */
  lemma NothingElseReachesTheRecord(s: State, event: Event)
    requires !event.StreamRecords?
    ensures var t := Step(s, event);
            t.key == s.key && t.asked == s.asked && t.served == s.served && t.record == s.record
  {
  }

  /** What a sweep does to a running session. */
  lemma ASweepEndsExactly(s: State, oracle: Oracle, now: Time)
    requires Inv(s) && s.fate.Running?
    ensures var t := Step(s, Sweeps(oracle, now));
            && (t.fate.Running? <==> forall stream :: stream in s.served ==> Good(oracle, stream, now))
            && (t.fate.Running? ==> t == s)
            && (!t.fate.Running? ==> t.fate.WasCut? && t.pipes == {})
  {
    hide IsUnion, Good;
    SweepIsExact(oracle, s.record, s.served, s.key, now);
  }

  /**
    However the session got there, a sweep ends it exactly when something a served stream rests on is bad by then.
  */
  lemma NothingBadOutlivesASweep(key: Key, events: seq<Event>, oracle: Oracle, now: Time)
    requires Run(Start(key), events).fate.Running?
    ensures var before, after := Run(Start(key), events), Step(Run(Start(key), events), Sweeps(oracle, now));
            && (after.fate.Running? <==> forall s :: s in before.served ==> Good(oracle, s, now))
            && (after.fate.Running? ==> after == before)
            && (!after.fate.Running? ==> after.fate.WasCut? && after.pipes == {})
  {
    RunKeepsInv(key, events);
    ASweepEndsExactly(Run(Start(key), events), oracle, now);
  }

  /** Accepting stops for good at the first failure to accept: no stream arrives after it, however long pipes last. */
  lemma {:induction false} NoStreamComesAfterTheLast(s: State, events: seq<Event>)
    requires Inv(s) && Enabled(s, AcceptFails)
    ensures var t := Run(Step(s, AcceptFails), events);
            !t.accepting && t.arrived == s.arrived && t.pipes <= s.pipes
  {
    if events != [] {
      NoStreamComesAfterTheLast(s, events[..|events| - 1]);
    }
  }

  /** Until then a session takes streams whenever it has room for one. */
  lemma {:induction false} ASessionTakesStreamsWhileItHasRoom(key: Key, events: seq<Event>)
    requires AcceptFails !in events && Run(Start(key), events).fate.Running?
    ensures var t := Run(Start(key), events);
            && (Enabled(t, StreamArrives) <==> |t.pipes| < MAX_STREAMS_PER_SESSION)
            && (Enabled(t, AcceptFails) <==> |t.pipes| < MAX_STREAMS_PER_SESSION)
  {
    StillAccepting(key, events);
  }

  lemma {:induction false} StillAccepting(key: Key, events: seq<Event>)
    requires AcceptFails !in events
    ensures Run(Start(key), events).accepting
  {
    if events != [] {
      assert events[|events| - 1] in events;
      StillAccepting(key, events[..|events| - 1]);
    }
  }

  /** A stream asks for its place in the record once. */
  lemma {:induction false} AStreamAsksOnce(s: State, pipe: nat, ruling: Ruling, events: seq<Event>, again: Ruling)
    requires Enabled(s, StreamRecords(pipe, ruling))
    ensures var t := Run(Step(s, StreamRecords(pipe, ruling)), events);
            pipe in t.asked && !Enabled(t, StreamRecords(pipe, again))
  {
    hide Verdict;
    if events != [] {
      AStreamAsksOnce(s, pipe, ruling, events[..|events| - 1], again);
    }
  }

  lemma OneEventOn(s: State, event: Event, pipe: nat)
    ensures var t := Step(s, event);
            && t.arrived >= s.arrived
            && (s.fate.WasCut? ==> t.fate.WasCut?)
            && (pipe in s.pipes && event != PipeEnds(pipe) ==> pipe in t.pipes || t.fate.WasCut?)
  {
  }

  /** A stream that arrives is in flight until it ends or its session is cut; an ended one is never in flight again. */
  lemma {:induction false} AStreamIsInFlightUntilItEnds(s: State, events: seq<Event>)
    requires Inv(s) && Enabled(s, StreamArrives)
    ensures var t := Run(Step(s, StreamArrives), events);
            && t.arrived > s.arrived
            && (PipeEnds(s.arrived) !in events && !t.fate.WasCut? ==> s.arrived in t.pipes)
            && s.pipes !! {s.arrived}
  {
    hide IsUnion, Keep, Verdict;
    if events != [] {
      var n := |events| - 1;
      AStreamIsInFlightUntilItEnds(s, events[..n]);
      assert events[n] in events && forall e :: e in events[..n] ==> e in events;
      OneEventOn(Run(Step(s, StreamArrives), events[..n]), events[n], s.arrived);
    }
  }

  lemma {:induction false} AnEndedStreamIsGone(s: State, pipe: nat, events: seq<Event>)
    requires Inv(s) && Enabled(s, PipeEnds(pipe))
    ensures pipe !in Run(Step(s, PipeEnds(pipe)), events).pipes
    ensures Run(Step(s, PipeEnds(pipe)), events).arrived > pipe
  {
    hide IsUnion, Keep, Verdict;
    if events != [] {
      AnEndedStreamIsGone(s, pipe, events[..|events| - 1]);
    }
  }

  /** How many pipes end in the course of a run from `s`. */
  function Ends(s: State, events: seq<Event>): nat {
    if events == [] then 0
    else
      var at, last := Run(s, events[..|events| - 1]), events[|events| - 1];
      Ends(s, events[..|events| - 1]) + if last.PipeEnds? && Enabled(at, last) then 1 else 0
  }

  /**
    Once no more streams come, the session lasts exactly until its last pipe ends, however many sweeps pass it
    over.
  */
  lemma {:induction false} ADrainedSessionEnds(s: State, events: seq<Event>)
    requires Inv(s) && !s.accepting
    ensures var t := Run(s, events);
            && Inv(t) && !t.accepting
            && (t.fate.Running? ==> |t.pipes| + Ends(s, events) == |s.pipes| && Ends(s, events) < |s.pipes|)
            && (s.fate.Running? && t.fate.Drained? ==> Ends(s, events) == |s.pipes|)
  {
    if events != [] {
      var before := events[..|events| - 1];
      ADrainedSessionEnds(s, before);
      var at, last := Run(s, before), events[|events| - 1];
      StepKeepsInv(at, last);
      if Enabled(at, last) && last.PipeEnds? {
        assert |at.pipes - {last.pipe}| == |at.pipes| - 1;
      }
    }
  }

  /** A session that is over does nothing more. */
  lemma {:induction false} OverIsOver(s: State, events: seq<Event>)
    requires !s.fate.Running?
    ensures Run(s, events) == s
  {
    if events != [] {
      OverIsOver(s, events[..|events| - 1]);
    }
  }
}
