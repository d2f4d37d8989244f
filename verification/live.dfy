/**
  The live cut from end to end (src/tunnel/admit.rs:103-365, src/tunnel/exposer.rs:558-628, src/tunnel/cut.rs): the
  session's loop with what goes on inside its streams. A stream is admitted when its request has been read, waits
  while its target is opened, and asks for its place in the record only then, so other streams of the session, and
  sweeps, come in between. Every node's gate, table, disabled set and pools may be different at each of these.
*/
module LiveSessions {
  import opened Wrappers
  import opened Octets
  import opened LiveCut
  import opened Protocol
  import opened Admission
  import opened Serving
  import Sessions

  /** A stream let in: the node as it then was, what the peer had sent, and what it was admitted with. */
  datatype Letting = Letting(node: Node, pools: Pools, entered: bool, opens: nat, heard: seq<byte>, admitted: Admitted)

  /** `place` is a stream's place among those its session serves. */
  datatype Stage =
    | Opening(letting: Letting)
    | Ready(letting: Letting)
    | TurnedAway(cause: Cause)
    | InRecord(letting: Letting, place: nat)

  datatype LiveSession = LiveSession(peer: Peer, loop: Sessions.State, entered: bool, stages: map<nat, Stage>)

  datatype Event =
    | StreamArrives
    | AcceptFails
    | Hears(pipe: nat, node: Node, pools: Pools, opens: nat, heard: seq<byte>)
    | Opens(pipe: nat, source: bool)
    | Records(pipe: nat)
    | PipeEnds(pipe: nat)
    | Sweeps(oracle: Oracle, now: Time)

  function Start(peer: Peer): LiveSession { LiveSession(peer, Sessions.Start(peer.key), false, map[]) }

  ghost function DialHeard(node: Node, peer: Peer, heard: seq<byte>): Dial
    requires WellFormed(heard)
  {
    var q := ParseRequest(heard).value;
    DialOf(node, peer, q, Resolve(ServiceOf(q.service).value, node.e.services))
  }

  /** What a stream comes to when its request has been read, up to the opening of its target. */
  ghost function Hear(s: LiveSession, node: Node, pools: Pools, opens: nat, heard: seq<byte>): (Stage, bool) {
    if !WellFormed(heard) then
      (TurnedAway(Serve(node, Now(pools, s.entered, opens, s.loop.record), s.peer, heard, true).0.cause), s.entered)
    else
      var d := DialHeard(node, s.peer, heard);
      var ruling := Admit(node.e, pools, s.entered, d);
      match ruling.outcome
      case Failure(refusal) => (TurnedAway(NotLetIn(refusal)), s.entered)
      case Success(a) =>
        match RefusedAtOnce(node, opens, d.service, a.standing)
        case Some(cause) => (TurnedAway(cause), ruling.entered)
        case None => (Opening(Letting(node, pools, s.entered, opens, heard, a)), ruling.entered)
  }

  ghost predicate IsRawLetting(peer: Peer, l: Letting)
    requires WellFormed(l.heard)
  {
    IsRaw(l.node.e, DialHeard(l.node, peer, l.heard).service)
  }

  function RulingOf(a: Admitted): Sessions.Ruling {
    match a.permit
    case ProvenPermit(_) => Sessions.OnProof
    case _ => Sessions.OnCaps(a.ruled)
  }

  ghost function Step(s: LiveSession, event: Event): LiveSession {
    match event
    case StreamArrives => s.(loop := Sessions.Step(s.loop, Sessions.StreamArrives))
    case AcceptFails => s.(loop := Sessions.Step(s.loop, Sessions.AcceptFails))
    case PipeEnds(pipe) => s.(loop := Sessions.Step(s.loop, Sessions.PipeEnds(pipe)))
    case Sweeps(oracle, now) => s.(loop := Sessions.Step(s.loop, Sessions.Sweeps(oracle, now)))
    case Hears(pipe, node, pools, opens, heard) =>
      if pipe !in s.loop.pipes || pipe in s.stages then s
      else
        var (stage, entered) := Hear(s, node, pools, opens, heard);
        s.(stages := s.stages[pipe := stage], entered := entered)
    case Opens(pipe, source) =>
      if pipe !in s.loop.pipes || pipe !in s.stages || !s.stages[pipe].Opening? then s
      else
        var l := s.stages[pipe].letting;
        s.(stages := s.stages[pipe := if WellFormed(l.heard) && IsRawLetting(s.peer, l) && !source
                                      then TurnedAway(SourceUnavailable) else Ready(l)])
    case Records(pipe) =>
      if pipe !in s.loop.pipes || pipe !in s.stages || !s.stages[pipe].Ready? then s
      else
        var l := s.stages[pipe].letting;
        var ruling := RulingOf(l.admitted);
        var loop := Sessions.Step(s.loop, Sessions.StreamRecords(pipe, ruling));
        match Keep(s.loop.record, Sessions.StreamOf(s.loop.key, ruling))
        case Success(_) => s.(loop := loop, stages := s.stages[pipe := InRecord(l, |s.loop.served|)])
        case Failure(why) => s.(loop := loop, stages := s.stages[pipe := TurnedAway(Unkept(why))])
  }

  ghost function Run(peer: Peer, events: seq<Event>): LiveSession {
    if events == [] then Start(peer) else Step(Run(peer, events[..|events| - 1]), events[|events| - 1])
  }

  // ----- what holds over every run ---------------------------------------------------------------------

  /** The node let this stream in on what it heard: no check between its octets and the opening of its target failed. */
  ghost predicate LetIn(peer: Peer, l: Letting) {
    && WellFormed(l.heard)
    && var d := DialHeard(l.node, peer, l.heard);
       && Admit(l.node.e, l.pools, l.entered, d).outcome == Success(l.admitted)
       && RefusedAtOnce(l.node, l.opens, d.service, l.admitted.standing).None?
  }

  ghost predicate StageFits(s: LiveSession, pipe: nat, stage: Stage) {
    match stage
    case Opening(l) => LetIn(s.peer, l) && pipe !in s.loop.asked
    case Ready(l) => LetIn(s.peer, l) && pipe !in s.loop.asked
    case TurnedAway(_) => true
    case InRecord(l, place) =>
      && LetIn(s.peer, l) && pipe in s.loop.asked
      && place < |s.loop.served| && s.loop.served[place] == KeptOn(s.peer.key, l.admitted)
  }

  ghost predicate StagesFit(s: LiveSession) {
    && (forall pipe :: pipe in s.stages ==> StageFits(s, pipe, s.stages[pipe]))
    && (forall pipe :: pipe in s.loop.asked ==> pipe in s.stages)
  }

  predicate HasPlace(s: LiveSession, pipe: nat, place: nat) {
    pipe in s.stages && s.stages[pipe].InRecord? && s.stages[pipe].place == place
  }

  ghost predicate IsTaken(s: LiveSession, place: nat) { exists pipe: nat :: HasPlace(s, pipe, place) }

  /** Each served stream is exactly one pipe's. */
  ghost predicate OneAPlace(s: LiveSession) {
    && (forall place: nat :: place < |s.loop.served| ==> IsTaken(s, place))
    && (forall p: nat, q: nat, place: nat :: HasPlace(s, p, place) && HasPlace(s, q, place) ==> p == q)
  }

  ghost predicate Inv(s: LiveSession) {
    && s.loop.key == s.peer.key
    && Sessions.Inv(s.loop)
    && StagesFit(s)
    && OneAPlace(s)
  }

  lemma LoopStepKeepsInv(s: LiveSession, inner: Sessions.Event)
    requires Inv(s) && !inner.StreamRecords?
    ensures Inv(s.(loop := Sessions.Step(s.loop, inner)))
  {
    hide LetIn, KeptOn, Sessions.Step, Sessions.Inv;
    Sessions.StepKeepsInv(s.loop, inner);
    Sessions.NothingElseReachesTheRecord(s.loop, inner);
    var t := s.(loop := Sessions.Step(s.loop, inner));
    assert forall pipe :: pipe in t.stages ==> StageFits(s, pipe, s.stages[pipe]);
    SamePlaces(s, t);
  }

  lemma SamePlaces(s: LiveSession, t: LiveSession)
    requires OneAPlace(s) && |t.loop.served| == |s.loop.served|
    requires forall pipe: nat, place: nat :: HasPlace(t, pipe, place) == HasPlace(s, pipe, place)
    ensures OneAPlace(t)
  {
    forall place: nat | place < |t.loop.served| ensures IsTaken(t, place) {
      assert IsTaken(s, place);
      var pipe: nat :| HasPlace(s, pipe, place);
      assert HasPlace(t, pipe, place);
    }
  }

  lemma StageKeepsInv(s: LiveSession, pipe: nat, stage: Stage, entered: bool)
    requires Inv(s) && StageFits(s, pipe, stage) && !stage.InRecord?
    requires pipe in s.stages ==> !s.stages[pipe].InRecord?
    ensures Inv(s.(stages := s.stages[pipe := stage], entered := entered))
  {
    hide LetIn, KeptOn, Sessions.Inv;
    var t := s.(stages := s.stages[pipe := stage], entered := entered);
    forall p | p in t.stages ensures StageFits(t, p, t.stages[p]) {
      assert p != pipe ==> StageFits(s, p, s.stages[p]);
    }
    SamePlaces(s, t);
  }

  lemma HearKeepsInv(s: LiveSession, pipe: nat, node: Node, pools: Pools, opens: nat, heard: seq<byte>)
    requires Inv(s)
    ensures Inv(Step(s, Hears(pipe, node, pools, opens, heard)))
  {
    if pipe in s.loop.pipes && pipe !in s.stages {
      var (stage, entered) := Hear(s, node, pools, opens, heard);
      StageKeepsInv(s, pipe, stage, entered);
    }
  }

  lemma TheRulingIsTheSessions(peer: Peer, l: Letting)
    requires LetIn(peer, l)
    ensures Sessions.StreamOf(peer.key, RulingOf(l.admitted)) == KeptOn(peer.key, l.admitted)
  {
    hide Admit, RefusedAtOnce, ParseRequest, ServiceOf, Resolve;
    AProvenPermitIsTheDialers(l.node.e, l.pools, l.entered, DialHeard(l.node, peer, l.heard));
  }

  lemma APipeThatIsReadyMayAsk(s: LiveSession, pipe: nat)
    requires Inv(s) && pipe in s.loop.pipes && pipe in s.stages && s.stages[pipe].Ready?
    ensures Sessions.Enabled(s.loop, Sessions.StreamRecords(pipe, RulingOf(s.stages[pipe].letting.admitted)))
  {
    assert StageFits(s, pipe, s.stages[pipe]);
  }

  /** `t` is `s` after this pipe has asked: it has the next place, or was turned away and the record is as it was. */
  ghost predicate Answered(s: LiveSession, t: LiveSession, pipe: nat)
    requires pipe in s.stages && s.stages[pipe].Ready?
  {
    var l := s.stages[pipe].letting;
    && t == s.(loop := t.loop, stages := t.stages)
    && t.loop.key == s.loop.key && t.loop.asked == s.loop.asked + {pipe}
    && match Keep(s.loop.record, KeptOn(s.peer.key, l.admitted))
       case Success(record) =>
         && t.stages == s.stages[pipe := InRecord(l, |s.loop.served|)] && t.loop.record == record
         && t.loop.served == s.loop.served + [KeptOn(s.peer.key, l.admitted)]
       case Failure(why) =>
         && t.stages == s.stages[pipe := TurnedAway(Unkept(why))] && t.loop.record == s.loop.record
         && t.loop.served == s.loop.served
  }

  /** A stream whose target is open gets its place exactly when the record takes what it was let in on. */
  lemma AReadyStreamIsRecordedExactly(s: LiveSession, pipe: nat)
    requires Inv(s) && pipe in s.loop.pipes && pipe in s.stages && s.stages[pipe].Ready?
    ensures Answered(s, Step(s, Records(pipe)), pipe)
  {
    hide LetIn, IsUnion, OneAPlace, Sessions.Step, Sessions.Inv, RulingOf, KeptOn, Keep;
    var l := s.stages[pipe].letting;
    assert StageFits(s, pipe, s.stages[pipe]);
    TheRulingIsTheSessions(s.peer, l);
    APipeThatIsReadyMayAsk(s, pipe);
    Sessions.AskingMeans(s.loop, pipe, RulingOf(l.admitted));
  }

  lemma RecordKeepsInv(s: LiveSession, pipe: nat)
    requires Inv(s)
    ensures Inv(Step(s, Records(pipe)))
  {
    hide LetIn, OneAPlace, StagesFit, StageFits, Sessions.Step, Sessions.Inv, RulingOf, KeptOn, Keep;
    if pipe in s.loop.pipes && pipe in s.stages && s.stages[pipe].Ready? {
      var t := Step(s, Records(pipe));
      AReadyStreamIsRecordedExactly(s, pipe);
      Sessions.StepKeepsInv(s.loop, Sessions.StreamRecords(pipe, RulingOf(s.stages[pipe].letting.admitted)));
      ItsStageFollows(s, t, pipe);
      ItsPlaceIsItsOwn(s, t, pipe);
    }
  }

  lemma ItsStageFollows(s: LiveSession, t: LiveSession, pipe: nat)
    requires StagesFit(s) && pipe in s.stages && s.stages[pipe].Ready?
    requires Answered(s, t, pipe)
    ensures StagesFit(t)
  {
    hide LetIn, KeptOn, Keep;
    assert StageFits(s, pipe, s.stages[pipe]);
    forall p | p in t.stages ensures StageFits(t, p, t.stages[p]) {
      assert p != pipe ==> StageFits(s, p, s.stages[p]);
    }
  }

  lemma ItsPlaceIsItsOwn(s: LiveSession, t: LiveSession, pipe: nat)
    requires StagesFit(s) && OneAPlace(s) && pipe in s.stages && s.stages[pipe].Ready?
    requires Answered(s, t, pipe)
    ensures OneAPlace(t)
  {
    hide LetIn, KeptOn, Keep;
    forall p: nat, place: nat | HasPlace(t, p, place) && p != pipe
      ensures HasPlace(s, p, place) && place < |s.loop.served| {
      assert StageFits(s, p, s.stages[p]);
    }
    forall place: nat | place < |t.loop.served| ensures IsTaken(t, place) {
      if place < |s.loop.served| {
        assert IsTaken(s, place);
        var p: nat :| HasPlace(s, p, place);
        assert HasPlace(t, p, place);
      } else {
        assert HasPlace(t, pipe, place);
      }
    }
  }

  lemma StepKeepsInv(s: LiveSession, event: Event)
    requires Inv(s)
    ensures Inv(Step(s, event)) && Step(s, event).peer == s.peer
  {
    match event
    case StreamArrives => LoopStepKeepsInv(s, Sessions.StreamArrives);
    case AcceptFails => LoopStepKeepsInv(s, Sessions.AcceptFails);
    case PipeEnds(pipe) => LoopStepKeepsInv(s, Sessions.PipeEnds(pipe));
    case Sweeps(oracle, now) => LoopStepKeepsInv(s, Sessions.Sweeps(oracle, now));
    case Hears(pipe, node, pools, opens, heard) => HearKeepsInv(s, pipe, node, pools, opens, heard);
    case Opens(pipe, source) =>
      if pipe in s.loop.pipes && pipe in s.stages && s.stages[pipe].Opening? {
        assert StageFits(s, pipe, s.stages[pipe]);
        StageKeepsInv(s, pipe, Step(s, event).stages[pipe], s.entered);
      }
    case Records(pipe) => RecordKeepsInv(s, pipe);
  }

  lemma {:induction false} RunKeepsInv(peer: Peer, events: seq<Event>)
    ensures Inv(Run(peer, events)) && Run(peer, events).peer == peer
  {
    if events == [] {
      Sessions.RunKeepsInv(peer.key, []);
    } else {
      RunKeepsInv(peer, events[..|events| - 1]);
      StepKeepsInv(Run(peer, events[..|events| - 1]), events[|events| - 1]);
    }
  }

  // ----- whose a letting is ----------------------------------------------------------------------------

  /** The `i`-th event let this pipe's stream in: its first hearing, while in flight, of these octets on this node. */
  ghost predicate HeardAt(peer: Peer, events: seq<Event>, i: nat, pipe: nat, l: Letting)
    requires i < |events|
  {
    var s := Run(peer, events[..i]);
    && events[i] == Hears(pipe, l.node, l.pools, l.opens, l.heard)
    && pipe in s.loop.pipes && pipe !in s.stages
    && l.entered == s.entered && LetIn(peer, l)
  }

  ghost predicate LetInBy(peer: Peer, events: seq<Event>, pipe: nat, l: Letting) {
    exists i: nat :: i < |events| && HeardAt(peer, events, i, pipe, l)
  }

  lemma StagesOnlyGrow(s: LiveSession, event: Event)
    ensures s.stages.Keys <= Step(s, event).stages.Keys
  {
    hide Hear, IsRawLetting, Keep, Sessions.Step;
  }

  lemma {:induction false} RunOnlyGrows(peer: Peer, events: seq<Event>, i: nat)
    requires i <= |events|
    ensures Run(peer, events[..i]).stages.Keys <= Run(peer, events).stages.Keys
  {
    hide Step;
    if i == |events| {
      assert events[..i] == events;
    } else {
      var before := events[..|events| - 1];
      RunOnlyGrows(peer, before, i);
      assert before[..i] == events[..i];
      StagesOnlyGrow(Run(peer, before), events[|events| - 1]);
    }
  }

  lemma ItIsHeardFrom(peer: Peer, events: seq<Event>, i: nat, pipe: nat, l: Letting)
    requires i < |events| && HeardAt(peer, events, i, pipe, l)
    ensures pipe in Run(peer, events[..i + 1]).stages
  {
    hide Hear, LetIn, Sessions.Step;
    assert events[..i + 1][..i] == events[..i];
  }

  /** A stream is let in once, so its letting is its own. */
  lemma OneHearing(peer: Peer, events: seq<Event>, i: nat, j: nat, pipe: nat, l: Letting, m: Letting)
    requires i < |events| && j < |events|
    requires HeardAt(peer, events, i, pipe, l) && HeardAt(peer, events, j, pipe, m)
    ensures i == j && l == m
  {
    hide Run, Admit, ParseRequest, ServiceOf, Resolve;
    if i < j {
      assert events[..j][..i + 1] == events[..i + 1];
      ItIsHeardFrom(peer, events, i, pipe, l);
      RunOnlyGrows(peer, events[..j], i + 1);
    } else if j < i {
      assert events[..i][..j + 1] == events[..j + 1];
      ItIsHeardFrom(peer, events, j, pipe, m);
      RunOnlyGrows(peer, events[..i], j + 1);
    }
  }

  lemma LetInEarlier(peer: Peer, before: seq<Event>, events: seq<Event>, pipe: nat, l: Letting)
    requires before <= events && LetInBy(peer, before, pipe, l)
    ensures LetInBy(peer, events, pipe, l)
  {
    hide Run, LetIn;
    var i: nat :| i < |before| && HeardAt(peer, before, i, pipe, l);
    assert events[..i] == before[..i];
    assert HeardAt(peer, events, i, pipe, l);
  }

  /** One step leaves each stream the letting it had, and lets in only whom it hears. */
  lemma AStepKeepsLettings(s: LiveSession, event: Event, pipe: nat)
    requires Inv(s) && pipe in Step(s, event).stages && !Step(s, event).stages[pipe].TurnedAway?
    ensures var l := Step(s, event).stages[pipe].letting;
            if pipe in s.stages then !s.stages[pipe].TurnedAway? && s.stages[pipe].letting == l
            else pipe in s.loop.pipes && event == Hears(pipe, l.node, l.pools, l.opens, l.heard)
                 && l.entered == s.entered && LetIn(s.peer, l)
  {
    hide Sessions.Step, Sessions.Inv, Keep, KeptOn, OneAPlace, IsRawLetting, ParseRequest, ServiceOf, Resolve, Admit;
  }

  /**
    From its hearing through its opening to its place in the record, a stream goes by the letting its own octets got
    it, whatever the other streams do.
  */
  lemma {:induction false} AStreamKeepsItsLetting(peer: Peer, events: seq<Event>, pipe: nat)
    requires pipe in Run(peer, events).stages && !Run(peer, events).stages[pipe].TurnedAway?
    ensures LetInBy(peer, events, pipe, Run(peer, events).stages[pipe].letting)
  {
    hide Step, Inv, LetIn;
    if events != [] {
      var n := |events| - 1;
      var s := Run(peer, events[..n]);
      var l := Run(peer, events).stages[pipe].letting;
      RunKeepsInv(peer, events[..n]);
      AStepKeepsLettings(s, events[n], pipe);
      if pipe in s.stages {
        AStreamKeepsItsLetting(peer, events[..n], pipe);
        LetInEarlier(peer, events[..n], events, pipe, l);
      } else {
        assert HeardAt(peer, events, n, pipe, l);
      }
    }
  }

  // ----- the live cut ----------------------------------------------------------------------------------

  /**
    From octets to the record, however the session's streams interleave: the record is the union of the served
    streams; each stream that got its place serves there exactly what its own octets let it in on; and each place is
    one such stream's and no other's.
  */
  lemma TheRecordIsFromOctets(peer: Peer, events: seq<Event>)
    ensures var s := Run(peer, events);
            && IsUnion(s.loop.record, s.loop.served)
            && (forall pipe :: pipe in s.stages && s.stages[pipe].InRecord? ==>
                  var l, place := s.stages[pipe].letting, s.stages[pipe].place;
                  && place < |s.loop.served| && s.loop.served[place] == KeptOn(peer.key, l.admitted)
                  && LetInBy(peer, events, pipe, l))
            && OneAPlace(s)
  {
    hide LetIn, IsUnion, OneAPlace, KeptOn, LetInBy;
    RunKeepsInv(peer, events);
    var s := Run(peer, events);
    forall pipe | pipe in s.stages && s.stages[pipe].InRecord?
      ensures StageFits(s, pipe, s.stages[pipe]) && LetInBy(peer, events, pipe, s.stages[pipe].letting)
    {
      AStreamKeepsItsLetting(peer, events, pipe);
    }
  }

  /** What a served stream of a session rests on is still good. */
  ghost predicate StillGood(s: LiveSession, oracle: Oracle, now: Time, pipe: nat)
    requires pipe in s.stages && s.stages[pipe].InRecord?
  {
    GoodOn(oracle, s.peer.key, s.stages[pipe].letting.admitted, now)
  }

  /**
    And from there to its end: in any such run a sweep ends the session exactly when something a stream in the record
    was let in on is bad by then, and with it every stream; otherwise it changes nothing.
  */
  lemma TheLiveCut(peer: Peer, events: seq<Event>, oracle: Oracle, now: Time)
    requires Run(peer, events).loop.fate.Running?
    ensures var s, t := Run(peer, events), Run(peer, events + [Sweeps(oracle, now)]);
            && (t.loop.fate.Running? <==>
                  forall pipe :: pipe in s.stages && s.stages[pipe].InRecord? ==> StillGood(s, oracle, now, pipe))
            && (t.loop.fate.Running? ==> t == s)
            && (!t.loop.fate.Running? ==> t.loop.fate.WasCut? && t.loop.pipes == {})
  {
    hide LetIn, IsUnion, Sessions.Step, Good, KeptOn;
    RunKeepsInv(peer, events);
    var s, more := Run(peer, events), events + [Sweeps(oracle, now)];
    assert more[..|more| - 1] == events;
    Sessions.ASweepEndsExactly(s.loop, oracle, now);
    GoodByPipe(s, oracle, now);
  }

  /** The served streams are those of the pipes in the record. */
  lemma GoodByPipe(s: LiveSession, oracle: Oracle, now: Time)
    requires Inv(s)
    ensures (forall stream :: stream in s.loop.served ==> Good(oracle, stream, now))
       <==> forall pipe :: pipe in s.stages && s.stages[pipe].InRecord? ==> StillGood(s, oracle, now, pipe)
  {
    hide LetIn, IsUnion, Sessions.Inv, Good, KeptOn, GoodOn;
    forall pipe | pipe in s.stages && s.stages[pipe].InRecord?
      ensures KeptOn(s.peer.key, s.stages[pipe].letting.admitted) in s.loop.served
      ensures Good(oracle, KeptOn(s.peer.key, s.stages[pipe].letting.admitted), now)
         <==> StillGood(s, oracle, now, pipe)
    {
      assert StageFits(s, pipe, s.stages[pipe]);
      ItRestsOnItsLetting(s.peer, s.stages[pipe].letting, oracle, now);
    }
    forall stream | stream in s.loop.served
      ensures exists pipe :: pipe in s.stages && s.stages[pipe].InRecord?
                             && stream == KeptOn(s.peer.key, s.stages[pipe].letting.admitted)
    {
      var place: nat :| place < |s.loop.served| && s.loop.served[place] == stream;
      assert IsTaken(s, place);
      var pipe: nat :| HasPlace(s, pipe, place);
      assert StageFits(s, pipe, s.stages[pipe]);
    }
  }

  lemma ItRestsOnItsLetting(peer: Peer, l: Letting, oracle: Oracle, now: Time)
    requires LetIn(peer, l)
    ensures Good(oracle, KeptOn(peer.key, l.admitted), now) <==> GoodOn(oracle, peer.key, l.admitted, now)
  {
    hide Admit, RefusedAtOnce, ParseRequest, ServiceOf, Resolve, Good, GoodOn, KeptOn;
    AProvenPermitIsTheDialers(l.node.e, l.pools, l.entered, DialHeard(l.node, peer, l.heard));
    WhatIsKeptIsWhatItRestsOn(oracle, peer.key, l.admitted, now);
  }

  /** The loop of such a session is the session loop, so what is true of every run of that is true of it. */
  lemma {:induction false} TheLoopIsTheLoop(peer: Peer, events: seq<Event>) returns (inner: seq<Sessions.Event>)
    ensures Run(peer, events).loop == Sessions.Run(Sessions.Start(peer.key), inner)
  {
    inner := [];
    if events != [] {
      var s, event := Run(peer, events[..|events| - 1]), events[|events| - 1];
      inner := TheLoopIsTheLoop(peer, events[..|events| - 1]);
      var step :=
        match event
        case StreamArrives => Some(Sessions.StreamArrives)
        case AcceptFails => Some(Sessions.AcceptFails)
        case PipeEnds(pipe) => Some(Sessions.PipeEnds(pipe))
        case Sweeps(oracle, now) => Some(Sessions.Sweeps(oracle, now))
        case Records(pipe) =>
          if pipe !in s.loop.pipes || pipe !in s.stages || !s.stages[pipe].Ready? then None
          else Some(Sessions.StreamRecords(pipe, RulingOf(s.stages[pipe].letting.admitted)))
        case _ => None;
      if step.Some? {
        assert (inner + [step.value])[..|inner|] == inner;
        inner := inner + [step.value];
      }
    }
  }

  /** With nothing in between, the three parts of a stream come to what the stream comes to whole. */
  lemma AStreamAloneIsServed(s: LiveSession, pipe: nat, node: Node, pools: Pools, opens: nat, heard: seq<byte>,
                             source: bool)
    requires Inv(s) && s.loop.fate.Running? && pipe in s.loop.pipes && pipe !in s.stages && node.wired
    ensures var t := Step(Step(Step(s, Hears(pipe, node, pools, opens, heard)), Opens(pipe, source)), Records(pipe));
            var whole := Serve(node, Now(pools, s.entered, opens, s.loop.record), s.peer, heard, source);
            && t.loop.record == whole.1.record && t.entered == whole.1.entered
            && pipe in t.stages
            && (if whole.0.Served? then t.stages[pipe].InRecord? else t.stages[pipe] == TurnedAway(whole.0.cause))
  {
    hide LetIn, IsUnion, OneAPlace, RefusedAtOnce, KeptOn, RulingOf, Keep, Admit, ServeDial;
    hide Sessions.Step, Sessions.Inv, Sessions.Enabled, ParseRequest, ServiceOf, Resolve;
    var now := Now(pools, s.entered, opens, s.loop.record);
    var first := Step(s, Hears(pipe, node, pools, opens, heard));
    HearKeepsInv(s, pipe, node, pools, opens, heard);
    if !WellFormed(heard) {
      AMalformedRequestIsServedNothing(node, now, s.peer, heard, source);
      return;
    }
    ServedInParts(node, now, DialHeard(node, s.peer, heard), source);
    if first.stages[pipe].Opening? {
      assert StageFits(first, pipe, first.stages[pipe]);
      StepKeepsInv(first, Opens(pipe, source));
      var second := Step(first, Opens(pipe, source));
      if second.stages[pipe].Ready? {
        AReadyStreamIsRecordedExactly(second, pipe);
      }
    }
  }

  /** What `ServeDial` comes to, part by part. */
  lemma ServedInParts(node: Node, now: Now, d: Dial, source: bool)
    ensures var r, ruling := ServeDial(node, now, d, source), Admit(node.e, now.pools, now.entered, d);
            match ruling.outcome
            case Failure(refusal) => r == (Denied(NotLetIn(refusal)), now)
            case Success(a) =>
              && r.1.entered == ruling.entered
              && match RefusedAtOnce(node, now.opens, d.service, a.standing)
                 case Some(cause) => r.0 == Denied(cause) && r.1.record == now.record
                 case None =>
                   if IsRaw(node.e, d.service) && !source then
                     r.0 == Denied(SourceUnavailable) && r.1.record == now.record
                   else match Recorded(node, now.record, d.peer, a)
                     case Failure(why) => r.0 == Denied(Unkept(why)) && r.1.record == now.record
                     case Success(record) => r.0 == Served(a) && r.1.record == record
  {
  }

  lemma AMalformedRequestIsServedNothing(node: Node, now: Now, peer: Peer, heard: seq<byte>, source: bool)
    requires !WellFormed(heard)
    ensures Serve(node, now, peer, heard, source).0.Denied? && Serve(node, now, peer, heard, source).1 == now
    ensures Serve(node, now, peer, heard, source) == Serve(node, now, peer, heard, true)
  {
  }
}
