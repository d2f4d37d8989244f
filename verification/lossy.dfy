/**
  The lazily opened, re-armable session around a `+lossy` source (`Lossy` in src/raw_stream.rs). A `fifo:`
  source is opened anew for each session; a ready reader (`stdin:`) is one session, ever.
*/
module LossySources {
  import opened Wrappers
  import opened Fanouts

  type Path = nat

  datatype Opener = Fifo(path: Path) | Ready

  datatype Outcome = Attached(viewer: nat) | OpenFailed | SessionEnded | NotArmed

  /** Where the one `open` in progress is: everything it does is under the source's async lock. */
  datatype Call = Free | AtTop(pass: nat) | OpeningPath(path: Path, pass: nat) | Joining(pass: nat) | Attaching

  /**
    `fanout` is the memoized session, an index into `sessions`, which keeps every session there has been.
    `unarmed` counts the calls that found neither an opener nor a session.
  */
  datatype Source = Source(opener: Option<Opener>, fifo: Option<Path>, fanout: Option<nat>,
                           sessions: seq<Fan>, call: Call, unarmed: nat)

  function NewSource(opener: Opener): Source {
    Source(Some(opener), if opener.Fifo? then Some(opener.path) else None, None, [], Free, 0)
  }

  /** Whether a session has ended: its pump is done and its ring says so. */
  predicate Over(f: Fan) { !f.reader.Waiting? && f.ring.closed }

  datatype Step =
    | CallStarts
    | Turns
    | PathOpened
    | PathFailed
    | Joins
    | Attaches
    | InSession(session: nat, step: Fanouts.Step)

  function Next(s: Source, step: Step): Source {
    match step
    case CallStarts => if s.call.Free? then s.(call := AtTop(0)) else s
    case Turns =>
      if !s.call.AtTop? then s
      else if s.fanout.Some? then s.(call := Joining(s.call.pass))
      else if s.opener.None? then s.(call := Free, unarmed := s.unarmed + 1)
      else if s.opener.value.Fifo? then s.(call := OpeningPath(s.opener.value.path, s.call.pass))
      else s.(opener := None, fanout := Some(|s.sessions|), sessions := s.sessions + [NewFan(UntilEof)],
              call := Joining(s.call.pass))
    case PathOpened =>
      if !s.call.OpeningPath? then s
      else s.(opener := None, fanout := Some(|s.sessions|), sessions := s.sessions + [NewFan(WhileWatched)],
              call := Joining(s.call.pass))
    case PathFailed => if s.call.OpeningPath? then s.(call := Free) else s
    case Joins =>
      if !s.call.Joining? || s.fanout.None? || s.fanout.value >= |s.sessions| then s
      else
        var k := s.fanout.value;
        if !Over(s.sessions[k]) then
          s.(sessions := s.sessions[k := Fanouts.Next(s.sessions[k], OpenStarts)], call := Attaching)
        else if s.fifo.Some? then
          s.(fanout := None, opener := Some(Fifo(s.fifo.value)), call := AtTop(s.call.pass + 1))
        else s.(call := Free)
    case Attaches =>
      if !s.call.Attaching? || s.fanout.None? || s.fanout.value >= |s.sessions| then s
      else
        var k := s.fanout.value;
        s.(sessions := s.sessions[k := Fanouts.Next(s.sessions[k], OpenAttaches)], call := Free)
    case InSession(k, step) =>
      if k >= |s.sessions| || step.OpenStarts? || step.OpenAttaches? then s
      else s.(sessions := s.sessions[k := Fanouts.Next(s.sessions[k], step)])
  }

  function Run(s: Source, steps: seq<Step>): Source {
    if steps == [] then s else Next(Run(s, steps[..|steps| - 1]), steps[|steps| - 1])
  }

  // ----- the invariant ---------------------------------------------------------------------------------

  /** Exactly one of opener and session is there, of the kind the source was made with. */
  ghost predicate Armed(s: Source) {
    && (s.opener.Some? <==> s.fanout.None?)
    && (s.opener.Some? ==> s.opener.value == if s.fifo.Some? then Fifo(s.fifo.value) else Ready)
    && (s.fanout.Some? ==> s.fanout.value == |s.sessions| - 1 >= 0)
    && (s.fifo.None? ==> |s.sessions| == if s.opener.Some? then 0 else 1)
  }

  ghost predicate SessionsInv(s: Source) {
    && (forall k :: 0 <= k < |s.sessions| ==> PumpOrder(s.sessions[k]))
    && (forall k :: 0 <= k < |s.sessions| ==>
          s.sessions[k].lifetime == if s.fifo.Some? then WhileWatched else UntilEof)
    && (forall k :: 0 <= k < |s.sessions| && s.fanout != Some(k) ==> s.sessions[k].ring.closed)
    && (forall k :: 0 <= k < |s.sessions| && s.sessions[k].opening ==> s.call.Attaching? && s.fanout == Some(k))
  }

  /** A second pass only ever follows the end of a `fifo:` session, and finds a session nobody has joined. */
  ghost predicate CallInv(s: Source)
    requires Armed(s)
  {
    match s.call
    case Free => true
    case AtTop(pass) => pass <= 1 && (pass == 1 ==> s.fanout.None? && s.fifo.Some?)
    case OpeningPath(path, pass) => pass <= 1 && s.opener == Some(Fifo(path))
    case Joining(pass) => s.fanout.Some? && pass <= 1 && (pass == 1 ==> s.sessions[|s.sessions| - 1].pump.Unstarted?)
    case Attaching => s.fanout.Some? && s.sessions[|s.sessions| - 1].opening
  }

  ghost predicate SourceInv(s: Source) {
    Armed(s) && SessionsInv(s) && CallInv(s) && s.unarmed == 0
  }

  /** Replacing one session by what a step made of it keeps the invariant, if the call's own part still holds. */
  lemma SessionStepKeepsInv(s: Source, k: nat, inner: Fanouts.Step, t: Source)
    requires SourceInv(s) && k < |s.sessions|
    requires t == s.(sessions := s.sessions[k := Fanouts.Next(s.sessions[k], inner)], call := t.call)
    requires inner.OpenStarts? || inner.OpenAttaches? ==> s.fanout == Some(k)
    requires CallInv(t)
    requires t.sessions[k].opening ==> t.call.Attaching? && s.fanout == Some(k)
    requires s.call.Attaching? && !t.call.Attaching? ==> s.fanout == Some(k)
    ensures SourceInv(t)
  {
    NextKeepsPumpOrder(s.sessions[k], inner);
  }

  lemma InnerStepKeepsInv(s: Source, k: nat, inner: Fanouts.Step)
    requires SourceInv(s) && k < |s.sessions| && !inner.OpenStarts? && !inner.OpenAttaches?
    ensures SourceInv(Next(s, InSession(k, inner)))
  {
    NextKeepsPumpOrder(s.sessions[k], inner);
    SessionStepKeepsInv(s, k, inner, Next(s, InSession(k, inner)));
  }

  lemma JoinKeepsInv(s: Source)
    requires SourceInv(s) && s.call.Joining? && !Over(s.sessions[s.fanout.value])
    ensures SourceInv(Next(s, Joins))
  {
    NextKeepsPumpOrder(s.sessions[s.fanout.value], OpenStarts);
    SessionStepKeepsInv(s, s.fanout.value, OpenStarts, Next(s, Joins));
  }

  lemma AttachKeepsInv(s: Source)
    requires SourceInv(s) && s.call.Attaching?
    ensures SourceInv(Next(s, Attaches))
  {
    NextKeepsPumpOrder(s.sessions[s.fanout.value], OpenAttaches);
    SessionStepKeepsInv(s, s.fanout.value, OpenAttaches, Next(s, Attaches));
  }

  lemma NextKeepsSourceInv(s: Source, step: Step)
    requires SourceInv(s)
    ensures SourceInv(Next(s, step))
  {
    match step
    case InSession(k, inner) =>
      if k < |s.sessions| && !inner.OpenStarts? && !inner.OpenAttaches? {
        InnerStepKeepsInv(s, k, inner);
      }
    case Joins =>
      if s.call.Joining? && !Over(s.sessions[s.fanout.value]) {
        JoinKeepsInv(s);
      }
    case Attaches =>
      if s.call.Attaching? {
        AttachKeepsInv(s);
      }
    case _ =>
  }

  lemma {:induction false} RunKeepsSourceInv(s: Source, steps: seq<Step>)
    requires SourceInv(s)
    ensures SourceInv(Run(s, steps))
  {
    if steps != [] {
      RunKeepsSourceInv(s, steps[..|steps| - 1]);
      NextKeepsSourceInv(Run(s, steps[..|steps| - 1]), steps[|steps| - 1]);
    }
  }

  // ----- the theorems ----------------------------------------------------------------------------------

  /** Where a reader of the source is: ready but unopened, being opened, or with a session's pump. */
  datatype Place = InOpener | BeingOpened | WithSession(session: nat)

  ghost predicate ReaderAt(s: Source, p: Place) {
    match p
    case InOpener => s.opener == Some(Ready)
    case BeingOpened => s.call.OpeningPath?
    case WithSession(k) => k < |s.sessions| && s.sessions[k].HasReader()
  }

  /**
    In every interleaving of calls, failed opens, pumps and viewers: the source is always armed one way and
    never both, a ready source is opened once, no call goes round its loop a third time, and no two readers
    of it are ever live, across all sessions.
  */
  lemma NeverTwoReaders(opener: Opener, steps: seq<Step>, p: Place, q: Place)
    ensures var s := Run(NewSource(opener), steps);
            && s.unarmed == 0
            && (s.opener.Some? <==> s.fanout.None?)
            && (opener.Ready? ==> |s.sessions| <= 1)
            && (s.call.AtTop? || s.call.OpeningPath? || s.call.Joining? ==> s.call.pass <= 1)
            && (ReaderAt(s, p) && ReaderAt(s, q) ==> p == q)
  {
    RunKeepsSourceInv(NewSource(opener), steps);
    FifoIsKept(NewSource(opener), steps);
    var s := Run(NewSource(opener), steps);
    assert forall k :: 0 <= k < |s.sessions| && s.sessions[k].ring.closed
             ==> PumpOrder(s.sessions[k]) && !s.sessions[k].HasReader();
  }

  lemma {:induction false} FifoIsKept(s: Source, steps: seq<Step>)
    ensures Run(s, steps).fifo == s.fifo
  {
    if steps != [] {
      FifoIsKept(s, steps[..|steps| - 1]);
    }
  }

  /** A failed or cancelled open leaves the source as armed as it found it. */
  lemma AFailedOpenStaysArmed(s: Source)
    requires SourceInv(s) && s.call.OpeningPath?
    ensures var t := Next(s, PathFailed);
            t.call.Free? && t.opener == Some(Fifo(s.call.path)) && t == s.(call := Free)
  {
  }

  /**
    Once its open has succeeded a call's second pass attaches, whatever came between: nobody else can have joined, or
    ended, the session it opened.
  */
  lemma TheSecondPassAttaches(s: Source)
    requires SourceInv(s) && s.call.Joining? && s.call.pass == 1
    ensures var t := Next(s, Joins);
            && t.call.Attaching? && Next(t, Attaches).call.Free?
            && |Next(t, Attaches).sessions[|s.sessions| - 1].viewers| == 1
  {
    assert PumpOrder(s.sessions[|s.sessions| - 1]);
  }

  /** Pumps and viewers go on by themselves: a step of one session is that session's own and touches nothing else. */
  lemma ASessionGoesOnByItself(s: Source, k: nat, inner: Fanouts.Step)
    requires k < |s.sessions| && inner != OpenStarts && inner != OpenAttaches
    ensures Next(s, InSession(k, inner)) == s.(sessions := s.sessions[k := Fanouts.Next(s.sessions[k], inner)])
  {
  }

  /** A live session is never abandoned: while it is not over, calls join it and change neither half of the state. */
  lemma ALiveSessionIsShared(s: Source, step: Step)
    requires SourceInv(s) && s.fanout.Some? && !Over(s.sessions[s.fanout.value])
    ensures Next(s, step).fanout == s.fanout && Next(s, step).opener == s.opener
  {
  }

  // ----- the code's own shape --------------------------------------------------------------------------

  /** The source after a call-by-call trace. */
  function Reached(opener: Opener, steps: seq<Step>): Source { Run(NewSource(opener), steps) }

  lemma OneStepOn(opener: Opener, steps: seq<Step>, step: Step)
    requires SourceInv(Reached(opener, steps))
    ensures Reached(opener, steps + [step]) == Next(Reached(opener, steps), step)
    ensures SourceInv(Reached(opener, steps + [step]))
  {
    NextKeepsSourceInv(Reached(opener, steps), step);
    assert (steps + [step])[..|steps|] == steps;
  }

  predicate On(s: Source) { s.fanout.Some? && s.fanout.value < |s.sessions| && !Over(s.sessions[s.fanout.value]) }

  /** The steps one turn of a call's loop takes alone; `opens` is whether its one guarded open succeeds. */
  function TurnScript(s: Source, opens: bool): seq<Step> {
    if s.fanout.Some? then if On(s) then [Turns, Joins, Attaches] else [Turns, Joins]
    else if s.fifo.None? then [Turns, Joins, Attaches]
    else if opens then [Turns, PathOpened, Joins, Attaches]
    else [Turns, PathFailed]
  }

  /** A viewer was let in: to the session that was on, or as the first of a new one. */
  ghost predicate Welcomed(s: Source, t: Source) {
    && t.opener.None? && |t.sessions| == |s.sessions| + (if On(s) then 0 else 1) && |t.sessions| > 0
    && t.sessions[|t.sessions| - 1].viewers
       == (if On(s) then s.sessions[s.fanout.value].viewers else [])
          + [NewViewer(t.sessions[|t.sessions| - 1].ring.Head())]
  }

  /** The viewer is the last to have joined the last session. */
  predicate IsNewest(viewer: nat, sessions: seq<Fan>) {
    sessions != [] && viewer + 1 == |sessions[|sessions| - 1].viewers|
  }

  /** A turn comes round again only where a `fifo:` session turns out to be over. */
  predicate GoesRound(s: Source) { s.fanout.Some? && !On(s) && s.fifo.Some? }

  /** The session put away and its path armed again, at the top of the loop once more. */
  function WentRound(s: Source): Source
    requires GoesRound(s) && s.call.AtTop?
  {
    s.(fanout := None, opener := Some(Fifo(s.fifo.value)), call := AtTop(s.call.pass + 1))
  }

  function CallScript(s: Source, opens: bool): seq<Step> {
    [CallStarts] + TurnScript(s, opens)
    + if GoesRound(s) then TurnScript(WentRound(s.(call := AtTop(0))), opens) else []
  }

  lemma {:induction false} RunAfter(s: Source, steps: seq<Step>, more: seq<Step>)
    ensures Run(s, steps + more) == Run(Run(s, steps), more)
  {
    hide Next;
    if more == [] {
      assert steps + more == steps;
    } else {
      var n := |more| - 1;
      RunAfter(s, steps, more[..n]);
      assert (steps + more)[..|steps| + n] == steps + more[..n];
    }
  }

  lemma RunFirst(s: Source, step: Step, more: seq<Step>)
    ensures Run(s, [step] + more) == Run(Next(s, step), more)
    ensures Run(s, [step]) == Next(s, step)
  {
    hide Next;
    assert [step][..0] == [];
    RunAfter(s, [step], more);
  }

  /** Joining a session that is on and attaching lets the viewer in. */
  lemma EntryMeaning(s: Source)
    requires SourceInv(s) && s.call.Joining? && On(s)
    ensures var t := Run(s, [Joins, Attaches]);
            && t.call.Free? && t == s.(sessions := t.sessions, call := Free)
            && |t.sessions| == |s.sessions|
            && t.sessions[|t.sessions| - 1].viewers
               == s.sessions[s.fanout.value].viewers + [NewViewer(t.sessions[|t.sessions| - 1].ring.Head())]
  {
    RunFirst(s, Joins, [Attaches]);
    RunFirst(Next(s, Joins), Attaches, []);
    assert [Joins] + [Attaches] == [Joins, Attaches];
    NextKeepsSourceInv(s, Joins);
  }

  lemma ArmedTurn(s: Source, opens: bool)
    requires SourceInv(s) && s.call.AtTop? && s.fanout.None? && (s.fifo.None? || opens)
    ensures Welcomed(s, Run(s, TurnScript(s, opens))) && Run(s, TurnScript(s, opens)).call.Free?
  {
    hide Run, SourceInv;
    var turned := Next(s, Turns);
    NextKeepsSourceInv(s, Turns);
    ATurnAtRest(s);
    if s.fifo.None? {
      EntryMeaning(turned);
      RunFirst(s, Turns, [Joins, Attaches]);
      assert [Turns] + [Joins, Attaches] == [Turns, Joins, Attaches];
    } else {
      NextKeepsSourceInv(turned, PathOpened);
      EntryMeaning(Next(turned, PathOpened));
      RunFirst(turned, PathOpened, [Joins, Attaches]);
      RunFirst(s, Turns, [PathOpened, Joins, Attaches]);
      assert [PathOpened] + [Joins, Attaches] == [PathOpened, Joins, Attaches];
      assert [Turns] + [PathOpened, Joins, Attaches] == [Turns, PathOpened, Joins, Attaches];
    }
  }

  lemma ATurnAtRest(s: Source)
    requires SourceInv(s)
    ensures s.opener.Some? <==> s.fanout.None?
    ensures s.fanout.Some? ==> s.fanout.value == |s.sessions| - 1
    ensures s.opener.Some? ==> s.opener.value == if s.fifo.Some? then Fifo(s.fifo.value) else Ready
  {
  }

  /** A turn while a session is on lets the viewer in to it. */
  lemma ATurnThatJoins(s: Source, opens: bool)
    requires SourceInv(s) && s.call.AtTop? && On(s)
    ensures Welcomed(s, Run(s, TurnScript(s, opens))) && Run(s, TurnScript(s, opens)).call.Free?
  {
    hide Run, SourceInv;
    ATurnAtRest(s);
    NextKeepsSourceInv(s, Turns);
    EntryMeaning(Next(s, Turns));
    RunFirst(s, Turns, [Joins, Attaches]);
    assert [Turns] + [Joins, Attaches] == [Turns, Joins, Attaches];
  }

  /** A turn that lets nobody in: its session is over, or its open fails. */
  lemma ATurnForNobody(s: Source, opens: bool)
    requires SourceInv(s) && s.call.AtTop? && !On(s) && (s.fanout.Some? || (s.fifo.Some? && !opens))
    ensures Run(s, TurnScript(s, opens)) == if GoesRound(s) then WentRound(s) else s.(call := Free)
  {
    hide Run, SourceInv;
    ATurnAtRest(s);
    var last := if s.fanout.Some? then Joins else PathFailed;
    RunFirst(s, Turns, [last]);
    RunFirst(Next(s, Turns), last, []);
    assert [Turns] + [last] == [Turns, last];
  }

  lemma TurnMeaning(s: Source, opens: bool)
    requires SourceInv(s) && s.call.AtTop?
    ensures var t := Run(s, TurnScript(s, opens));
            && (GoesRound(s) ==> t == WentRound(s))
            && (!GoesRound(s) ==> t.call.Free?)
            && (On(s) || (s.fanout.None? && (s.fifo.None? || opens)) ==> Welcomed(s, t))
            && (s.fanout.None? && s.fifo.Some? && !opens ==> t == s.(call := Free))
            && (s.fanout.Some? && !On(s) && s.fifo.None? ==> t == s.(call := Free))
  {
    hide Run, SourceInv, TurnScript, Welcomed;
    if s.fanout.None? && (s.fifo.None? || opens) {
      ArmedTurn(s, opens);
    } else if On(s) {
      ATurnThatJoins(s, opens);
    } else {
      ATurnForNobody(s, opens);
    }
  }

  /**
    A call goes round its loop at most twice: its second pass ends it. With the open it makes the viewer is let in, the
    first of a session of its own; without, the source is left armed as it was.
  */
  lemma TheSecondPassIsTheLast(s: Source, opens: bool)
    requires SourceInv(s) && s.call.AtTop? && s.call.pass == 1
    ensures var t := Run(s, TurnScript(s, opens));
            && t.call.Free?
            && (opens ==> |t.sessions| == |s.sessions| + 1
                          && t.sessions[|s.sessions|].viewers == [NewViewer(t.sessions[|s.sessions|].ring.Head())])
            && (!opens ==> t == s.(call := Free))
  {
    hide Run;
    TurnMeaning(s, opens);
  }

  /** What a whole call does to the source. */
  lemma CallMeaning(s: Source, opens: bool)
    requires SourceInv(s) && s.call.Free?
    ensures var t := Run(s, CallScript(s, opens));
            && (On(s) || (s.fifo.Some? && opens) || s.opener == Some(Ready) ==> Welcomed(s, t))
            && (!On(s) && s.fifo.Some? && !opens ==> t.opener == Some(Fifo(s.fifo.value)) && t.sessions == s.sessions)
            && (!On(s) && s.fifo.None? && s.opener.None? ==> t == s)
  {
    ATurnAtRest(s);
    var top := Next(s, CallStarts);
    NextKeepsSourceInv(s, CallStarts);
    var turn := TurnScript(top, opens);
    assert turn == TurnScript(s, opens);
    RunFirst(s, CallStarts, turn);
    TurnMeaning(top, opens);
    if GoesRound(s) {
      var again := Run(top, turn);
      RunKeepsSourceInv(top, turn);
      TurnMeaning(again, opens);
      var second := TurnScript(again, opens);
      assert again == WentRound(s.(call := AtTop(0)));
      RunAfter(s, [CallStarts] + turn, second);
    } else {
      assert [CallStarts] + turn + [] == [CallStarts] + turn;
    }
  }

  /**
    The source as the code holds it, with `call` where its one running call is. Each part of a call between two
    awaits is a method that does exactly one step of the machine; `trace` keeps the steps in order.
  */
  class Lossy {
    ghost const made: Opener
    var opener: Option<Opener>
    const fifo: Option<Path>
    var fanout: Option<nat>
    var sessions: seq<Fan>
    ghost var call: Call
    ghost var trace: seq<Step>

    ghost function State(): Source
      reads this
    {
      Source(opener, fifo, fanout, sessions, call, 0)
    }

    ghost predicate Valid()
      reads this
    {
      State() == Reached(made, trace) && SourceInv(State())
    }

    constructor (opener: Opener)
      ensures Valid() && State() == NewSource(opener) && trace == []
    {
      made := opener;
      this.opener := Some(opener);
      fifo := if opener.Fifo? then Some(opener.path) else None;
      fanout, sessions, call, trace := None, [], Free, [];
    }

    ghost method Begin()
      requires Valid() && call.Free?
      modifies this`call, this`trace
      ensures Valid() && trace == old(trace) + [CallStarts] && call == AtTop(0)
    {
      OneStepOn(made, trace, CallStarts);
      call, trace := AtTop(0), trace + [CallStarts];
    }

    /** The top of the loop: a ready reader arms a session at once, and a path is peeked at, still armed. */
    method Turn() returns (path: Option<Path>)
      requires Valid() && call.AtTop?
      modifies this`opener, this`fanout, this`sessions, this`call, this`trace
      ensures Valid() && trace == old(trace) + [Turns]
      ensures path.Some? <==> old(fanout).None? && fifo.Some?
      ensures path.Some? ==> call == OpeningPath(path.value, old(call.pass)) && unchanged(`opener, `fanout, `sessions)
      ensures path.None? ==> call == Joining(old(call.pass)) && fanout.Some?
      ensures old(fanout).Some? ==> unchanged(`opener, `fanout, `sessions)
      ensures old(fanout).None? && fifo.None? ==>
                opener.None? && fanout == Some(0) && sessions == [NewFan(UntilEof)] && old(sessions) == []
    {
      OneStepOn(made, trace, Turns);
      ghost var pass := call.pass;
      trace := trace + [Turns];
      path := None;
      if fanout.Some? {
        call := Joining(pass);
        return;
      }
      match opener
      case Some(Fifo(p)) =>
        path := Some(p);
        call := OpeningPath(p, pass);
      case Some(Ready) =>
        opener := None;
        sessions := sessions + [NewFan(UntilEof)];
        fanout := Some(|sessions| - 1);
        call := Joining(pass);
    }

    /** The guarded open comes back: only success clears the opener. */
    method PathReturns(opens: bool)
      requires Valid() && call.OpeningPath?
      modifies this`opener, this`fanout, this`sessions, this`call, this`trace
      ensures Valid() && trace == old(trace) + [if opens then PathOpened else PathFailed]
      ensures opens ==> opener.None? && fanout == Some(|old(sessions)|) && call == Joining(old(call.pass))
                        && sessions == old(sessions) + [NewFan(WhileWatched)]
      ensures !opens ==> call.Free? && unchanged(`opener, `fanout, `sessions)
    {
      var step := if opens then PathOpened else PathFailed;
      OneStepOn(made, trace, step);
      trace := trace + [step];
      if !opens {
        call := Free;
        return;
      }
      call := Joining(call.pass);
      opener := None;
      sessions := sessions + [NewFan(WhileWatched)];
      fanout := Some(|sessions| - 1);
    }

    /** Ask the memoized session for a viewer; one that is over is put away, and a path armed again. */
    method Join() returns (on: bool)
      requires Valid() && call.Joining?
      modifies this`opener, this`fanout, this`sessions, this`call, this`trace
      ensures Valid() && trace == old(trace) + [Joins]
      ensures on <==> !old(Over(sessions[fanout.value]))
      ensures on ==> call.Attaching? && unchanged(`opener, `fanout) && |sessions| == |old(sessions)|
                     && sessions[|sessions| - 1] == Fanouts.Next(old(sessions[|sessions| - 1]), OpenStarts)
      ensures !on ==> unchanged(`sessions)
      ensures !on && fifo.Some? ==>
                opener == Some(Fifo(fifo.value)) && fanout.None? && call == AtTop(old(call.pass) + 1)
      ensures !on && fifo.None? ==> call.Free? && unchanged(`opener, `fanout)
    {
      OneStepOn(made, trace, Joins);
      ghost var pass := call.pass;
      trace := trace + [Joins];
      var k := fanout.value;
      on := !Over(sessions[k]);
      if on {
        sessions := sessions[k := Fanouts.Next(sessions[k], OpenStarts)];
        call := Attaching;
      } else if fifo.Some? {
        fanout := None;
        opener := Some(Fifo(fifo.value));
        call := AtTop(pass + 1);
      } else {
        call := Free;
      }
    }

    method Attach() returns (viewer: nat)
      requires Valid() && call.Attaching?
      modifies this`sessions, this`call, this`trace
      ensures Valid() && trace == old(trace) + [Attaches] && call.Free? && |sessions| == |old(sessions)|
      ensures sessions[|sessions| - 1] == Fanouts.Next(old(sessions[|sessions| - 1]), OpenAttaches)
      ensures viewer == |old(sessions[|sessions| - 1].viewers)|
      ensures IsNewest(viewer, sessions)
    {
      OneStepOn(made, trace, Attaches);
      trace := trace + [Attaches];
      var k := fanout.value;
      viewer := |sessions[k].viewers|;
      sessions := sessions[k := Fanouts.Next(sessions[k], OpenAttaches)];
      call := Free;
    }

    /** Join the session and attach, or find it over. */
    method Enter() returns (viewer: Option<nat>)
      requires Valid() && call.Joining?
      modifies this`opener, this`fanout, this`sessions, this`call, this`trace
      ensures Valid() && (viewer.Some? <==> !old(Over(sessions[fanout.value])))
      ensures trace == old(trace) + if viewer.Some? then [Joins, Attaches] else [Joins]
      ensures viewer.Some? ==> call.Free? && IsNewest(viewer.value, sessions)
      ensures viewer.None? ==> unchanged(`sessions)
      ensures viewer.None? && fifo.Some? ==>
                opener == Some(Fifo(fifo.value)) && fanout.None? && call == AtTop(old(call.pass) + 1)
      ensures viewer.None? && fifo.None? ==> call.Free? && unchanged(`opener, `fanout)
    {
      hide Reached, Fanouts.Next, SourceInv;
      var on := Join();
      viewer := None;
      if on {
        var at := Attach();
        viewer := Some(at);
        Chained(old(trace), [Joins], [Attaches]);
      }
    }

    /** One turn of the loop: the outcome of the call, unless it goes round. */
    method Round(pathOpens: bool) returns (outcome: Option<Outcome>)
      requires Valid() && call.AtTop?
      modifies this`opener, this`fanout, this`sessions, this`call, this`trace
      ensures Valid() && trace == old(trace) + TurnScript(old(State()), pathOpens)
      ensures outcome.None? <==> old(GoesRound(State()))
      ensures outcome.None? ==> State() == WentRound(old(State()))
      ensures outcome.Some? ==> call.Free?
      ensures outcome.Some? && outcome.value.Attached? ==> IsNewest(outcome.value.viewer, sessions)
      ensures outcome == Some(SessionEnded) <==> fifo.None? && old(fanout.Some? && !On(State()))
      ensures outcome == Some(OpenFailed) <==> fifo.Some? && old(fanout).None? && !pathOpens
      ensures outcome != Some(NotArmed)
    {
      AtRest(State());
      hide Reached, SourceInv, Fanouts.Next, Valid;
      var path := Turn();
      if path.Some? {
        PathReturns(pathOpens);
        Chained(old(trace), [Turns], [if pathOpens then PathOpened else PathFailed]);
        if !pathOpens {
          return Some(OpenFailed);
        }
      }
      var viewer := Enter();
      Chained(old(trace), if path.Some? then [Turns, PathOpened] else [Turns],
              if viewer.Some? then [Joins, Attaches] else [Joins]);
      if viewer.Some? {
        return Some(Attached(viewer.value));
      }
      outcome := if fifo.None? then Some(SessionEnded) else None;
    }

    /**
      Attach a viewer, opening the source first if no session is on. `pathOpens` is whether the one guarded
      open a call can make succeeds; a call that fails it, or is cancelled in it, leaves the opener armed.
    */
    method Open(pathOpens: bool) returns (outcome: Outcome)
      requires Valid() && call.Free?
      modifies this`opener, this`fanout, this`sessions, this`call, this`trace
      ensures Valid() && call.Free? && trace == old(trace) + CallScript(old(State()), pathOpens)
      ensures outcome.Attached? <==> old(On(State())) || (fifo.Some? && pathOpens) || old(opener) == Some(Ready)
      ensures outcome.Attached? ==> IsNewest(outcome.viewer, sessions)
      ensures outcome.Attached? ==> Welcomed(old(State()), State())
      ensures outcome.OpenFailed? ==> fifo.Some? && opener == Some(Fifo(fifo.value)) && sessions == old(sessions)
      ensures outcome.SessionEnded? ==> fifo.None? && State() == old(State())
      ensures outcome != NotArmed
    {
      outcome := Loop(pathOpens);
      RunAfter(NewSource(made), old(trace), CallScript(old(State()), pathOpens));
      CallMeaning(old(State()), pathOpens);
    }

    method Loop(pathOpens: bool) returns (outcome: Outcome)
      requires Valid() && call.Free?
      modifies this`opener, this`fanout, this`sessions, this`call, this`trace
      ensures Valid() && call.Free? && trace == old(trace) + CallScript(old(State()), pathOpens)
      ensures outcome.Attached? <==> old(On(State())) || (fifo.Some? && pathOpens) || old(opener) == Some(Ready)
      ensures outcome.Attached? ==> IsNewest(outcome.viewer, sessions)
      ensures outcome.OpenFailed? ==> fifo.Some? && !old(On(State())) && !pathOpens
      ensures outcome.SessionEnded? ==> fifo.None? && old(fanout.Some? && !On(State()))
      ensures outcome != NotArmed
    {
      AtRest(State());
      hide Reached, SourceInv, Fanouts.Next, Valid, TurnScript, CallScript, GoesRound, WentRound, On, Said;
      ghost var start := State();
      Begin();
      var passes := 0;
      assert Said(start, 0, pathOpens) == [CallStarts] by { SaidAtFirst(start, pathOpens); }
      while true
        invariant 0 <= passes <= 1 && Valid() && AtPass(start, State(), passes)
        invariant trace == old(trace) + Said(start, passes, pathOpens)
        decreases 1 - passes
      {
        ghost var top := State();
        AtPassMeaning(start, top, passes, pathOpens);
        var done := Round(pathOpens);
        Chained(old(trace), Said(start, passes, pathOpens), TurnScript(top, pathOpens));
        if done.Some? {
          return done.value;
        }
        passes := passes + 1;
      }
    }

    /** Where a call is at the top of its `passes`th turn, and what it has done by then. */
    static ghost predicate AtPass(start: Source, top: Source, passes: nat) {
      if passes == 0 then top == start.(call := AtTop(0))
      else GoesRound(start) && top == WentRound(start.(call := AtTop(0)))
    }

    static ghost function Said(start: Source, passes: nat, opens: bool): seq<Step> {
      if passes == 0 then [CallStarts] else [CallStarts] + TurnScript(start, opens)
    }

    static lemma SaidAtFirst(start: Source, opens: bool)
      ensures Said(start, 0, opens) == [CallStarts]
    {
    }

    static lemma AtPassMeaning(start: Source, top: Source, passes: nat, opens: bool)
      requires AtPass(start, top, passes) && passes <= 1
      ensures GoesRound(top) ==>
        && passes == 0 && AtPass(start, WentRound(top), 1)
        && Said(start, 1, opens) == Said(start, passes, opens) + TurnScript(top, opens)
      ensures !GoesRound(top) ==> CallScript(start, opens) == Said(start, passes, opens) + TurnScript(top, opens)
      ensures On(start) <==> On(top)
      ensures top.fifo == start.fifo && top.call.AtTop? && top.call.pass == passes
      ensures top.fifo.None? ==> passes == 0 && top.fanout == start.fanout && top.opener == start.opener
    {
      if passes == 0 {
        assert TurnScript(top, opens) == TurnScript(start, opens);
        assert [CallStarts] + TurnScript(start, opens) + [] == [CallStarts] + TurnScript(start, opens);
      }
    }

    static lemma Chained(before: seq<Step>, taken: seq<Step>, more: seq<Step>)
      ensures before + taken + more == before + (taken + more)
    {
    }

    /** What the invariant says between calls. */
    static lemma AtRest(s: Source)
      requires SourceInv(s)
      ensures s.opener.Some? <==> s.fanout.None?
      ensures s.fanout.Some? ==> s.fanout.value == |s.sessions| - 1
      ensures s.opener.Some? ==> s.opener.value == if s.fifo.Some? then Fifo(s.fifo.value) else Ready
      ensures s.fifo.None? && s.opener.Some? ==> s.sessions == []
      ensures s.fanout.Some? ==> !s.sessions[s.fanout.value].opening || s.call.Attaching?
    {
    }
  }
}
