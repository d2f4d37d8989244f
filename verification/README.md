# tightbeam, verified

A Dafny model of the parts of tightbeam whose correctness spans many steps, and proofs about every run of them.
Each step of a state machine is one lock section of the program, or what a task does between two awaits, so a theorem
about every sequence of steps is a theorem about every interleaving. Where the program updates state in place the model
has a class whose methods do the same and are proved equal to a specification function; the theorems are about that
function. `Seat`, `Fanout` and `Lossy`, whose sections interleave, keep a ghost trace: each lock section is a method
that requires its step to be enabled and does exactly that step, and what is composed of them states the steps it took,
in order.

- `seat.dfy`, `meter.dfy`: the `stdin:` seat, one reader that cannot be re-opened lent to one peer at a time, and the
  gauge that says when its holder may be displaced.
- `ring.dfy`, `fanout.dfy`, `lossy.dfy`: the `+lossy` fan-out: a bounded ring read by independent cursors, the pump
  that fills it, and the source that opens it on demand and re-arms.
- `cut.dfy`, `session.dfy`: the record a session keeps of what it was admitted on, the verdict of a sweep over it, and
  the loop that serves the session and ends it.
- `live.dfy`: the live cut from end to end, with the session's streams interleaved: from the octets each opens with, over
  its admission, its opening and its place in the record, to the sweep that ends the session.
- `router.dfy`, `exposer.dfy`: the route table, the one door that proves it, and the two views a node is rendered from, as
  sets of rows and as the ordered listings of them.
- `admit.dfy`, `serve.dfy`: admission and its permits, and one stream from the octets it opens with to the octets it is
  answered with; `serve.dfy` closes with what the door's interlocks mean for every later stream.
- `protocol.dfy`, `catalog.dfy`: the two wires.
- `enabled.dfy`: the disabled list and its file.

## Assumptions

- A oneshot channel delivers once or gives the value back; waking wakes every waiter registered before it; a mutex
  section is one step; a future that is dropped runs its guards.
- The gate's rulings, token parsing, the stored revocations and the trust of a root are parameters: any functions. A
  rooted gate's ruling says whether the dialer is a member; an open gate witnesses anyone openly and no proven key; a
  proven witness names its own key for revocation. The revocation oracle is the store the gate reads.
- Which witness origin a handler's marker takes is `tightbeam-handler/src/open_policy.rs`: `Never` a rooted one, `OptIn`
  a rooted or an open one, `ProvenOnly` a proven one.
- An open of a path, of a socket or of a source either gives a reader or fails. Times come from one clock that does not
  go back within a trace.
- A string is its UTF-8 octets (section 4 of RFC 3629). The sign bit `FlipSign` flips is that of section 5.1.2 of RFC 8032,
  and the twin of a usable key is usable.

## Findings

Where an obvious statement is false of the code, a lemma gives the input and another the exact condition.

- A holder that takes too little for one window is not always preemptible at its end, because a restart may fall inside it
  (`OneWindowIsNotEnough`, `OneWindowCatchesExactly`). Two windows always catch it (`TwoWindowsCatchAHolder`).
- `dropped_bytes` reports only the first gap of an episode: a run of full-sized reads loses 0x1FFFF bytes of which 0x10000
  are logged (`TheLogCanUnderstate`). The log states the whole loss of a viewer if and only if it stood at the live edge
  between any two of its losses (`TheLogIsWholeExactly`).
- `open` may hand a cursor to a pump that has already decided to stop (`OpenCanMissTheStop`). A cursor `open` hands out can
  only ever read nothing if and only if the pump had decided to stop when it was counted (`AJoinerReadsNothingExactly`).
- A request whose string is too long has its magic, and perhaps more, on the stream when its write fails (`WriteRequest`
  states which octets), but never something that reads as a request (`ATornRequestNeverReads`).
- The catalog decoder asks for neither order nor distinct names (`DecodeDoesNotAskForOrder`), though its documentation
  describes the entries as ascending.
- A failed raw-stream open is answered as unavailable, not with the uniform refusal. It is heard if and only if the dialer
  was admitted to an enabled raw stream that could not be opened (`ASourceIsUnavailableExactly`).
- Even a node-wide open gate refuses a dialer that presents a token it cannot parse, because the token is parsed before the
  gate is asked (`AnOpenGateRefusesAMalformedToken`; the exact condition is in `ServedExactly`).
- The disabled list is fresh only over a file that is replaced, not rewritten, on a platform that reports a modification
  time, with no two versions of one stamp (`AnUndatedFileIsNeverSeen`, `ARewriteUnderALoadIsNeverSeen`,
  `AnEditWithinATickIsNeverSeen`). The comment at `src/enabled.rs:71-73` says a change within one tick is still seen; it is
  not where the length stays. A due check agrees with the file if and only if the stamp moved or it agreed already
  (`FreshExactly`), so a version of an equal stamp is seen if and only if it lists the same names
  (`ATwinStampIsNeverReread`), and a file of distinctly dated versions always is (`AnUndisturbedCheckAgrees`).
- A public stream refused after admission gives its stream permit back but leaves its session a public-session permit
  (`ADisabledNameCostsASessionPermit`), though the comment at `src/tunnel/admit.rs:706-708` says none does. It happens
  if and only if the stream was let in on an opened name with its session not yet classed
  (`ARefusedStreamEntersExactly`), and such a stream is refused if and only if its name is disabled or its source cannot
  be opened (`AnOpenedStreamIsRefusedExactly`).

## Model

| member | source | states |
|---|---|---|
| Metering.Meter.Record | src/raw_stream/seat.rs:431-464 | the gauge's two fields after one write are the specification's, and the bytes counted in a window never reach the minimum |
| Metering.Meter.Preemptible | src/raw_stream/seat.rs:467-476 | answers exactly when a window is open and has stayed open for `STALL_WINDOW` |
| Metering.WriterMeaning | src/raw_stream/seat.rs:412-420 | what the writer field says of the whole trace: refused, never refused, or the instant the last refusal ended |
| Metering.OpenMeaning | src/raw_stream/seat.rs:482-490 | a window is open if and only if one has opened and the writer has not since gone a whole `STALL_CLEAR` with every write taken |
| Metering.WindowMeaning | src/raw_stream/seat.rs:394-398 | an open window starts at some write, counts what was taken since, under the minimum, with the writer never clear since |
| Metering.PreemptibleIsStalled | src/raw_stream/seat.rs:385-398 | soundness: a preemptible holder has a period of at least `STALL_WINDOW`, ending now, with fewer than `STALL_MIN_BYTES` taken and no clean `STALL_CLEAR` |
| Metering.AReaderIsNeverPreemptible | src/raw_stream/seat.rs:34-53 | a holder that took `STALL_MIN_BYTES` within the last `STALL_WINDOW` is never preemptible |
| Metering.AnUnrefusedHolderIsNeverPreemptible | src/raw_stream/seat.rs:388-392 | a holder none of whose writes was refused is never preemptible, however idle |
| Metering.RestartsAtMostOnce | src/raw_stream/seat.rs:451-458 | while less than the minimum is taken and the writer never clears, a window runs on or restarts once |
| Metering.TwoWindowsCatchAHolder | src/raw_stream/seat.rs:394-398 | completeness: a holder under the minimum over two `STALL_WINDOW`s without clearing is preemptible at some instant of them |
| Metering.OneWindowCatchesExactly | src/raw_stream/seat.rs:394-398 | one window suffices if and only if no restart fell inside it |
| Metering.OneWindowIsNotEnough | src/raw_stream/seat.rs:451-458 | a trace under the minimum for one window that is not preemptible at its end |
| Metering.ASilentHolderFallsOnTime | src/raw_stream/seat.rs:467-476 | a holder that takes nothing is preemptible exactly from `STALL_WINDOW` after its window opened |
| Metering.RestartsArePaidFor | src/raw_stream/seat.rs:49-53 | restarts times `STALL_MIN_BYTES` never exceed the bytes taken |
| Seats.Seat.TakeSeat | src/raw_stream/seat.rs:163-200 | one dial is the machine's dial step: cell, guards and channels as specified, and the answer the specification's |
| Seats.Seat.PutBack | src/raw_stream/seat.rs:204-239 | a reader given back re-arms the seat, goes to the waiting dialer, or retires the seat: the machine's return step |
| Seats.Seat.PollReader | src/raw_stream/seat.rs:345-375 | a read passes bytes through in order; at the end of input the reader is dropped and its end is in hand, up to the lock |
| Seats.Seat.DropReader | src/raw_stream/seat.rs:377-383 | a dropped guard has what it still reads from in hand, up to the lock, and nothing twice |
| Seats.Seat.Read | src/raw_stream/seat.rs:345-375 | the steps of a whole read: one that reaches the end of input spends the seat before it returns, and another leaves the cell alone |
| Seats.Seat.Drop | src/raw_stream/seat.rs:377-383 | the steps of a whole drop: what the guard still read from is given back at once, and an emptied guard gives nothing back |
| Seats.Seat.RecordWrite | src/raw_stream/seat.rs:500-509 | a write toward the peer moves that guard's gauge and nothing else |
| Seats.Seat.TakeGrant | src/raw_stream/seat.rs:149-159 | a waiting dialer takes exactly what its channel was sent |
| Seats.Seat.GiveUp | src/raw_stream/seat.rs:149-159 | a dialer that gives up hangs its channel up, and a guard already sent to it is dropped |
| Seats.RunKeepsInv | src/raw_stream/seat.rs:86-102 | the seat's invariant over every interleaving of dials, reads, ends, drops, grants and timeouts, and that a guard still reading is with its peer or in a channel |
| Seats.OneOwner | src/raw_stream/seat.rs:163-239 | until the input ends the reader is in exactly one place and afterwards in none; the stray arm is never reached; only the end of input spends the seat |
| Seats.HoldersReadInTurn | src/raw_stream/seat.rs:345-383 | what successive holders read, end to end, is a prefix of the input, each holder one unbroken stretch |
| Seats.SpentIsFinal | src/raw_stream/seat.rs:100-102 | a spent seat stays spent, reads nothing more, and every dialer is told the input ended |
| Seats.TheEndReachesTheDialer | src/raw_stream/seat.rs:217-224 | the end of input reaches a waiting dialer as the end, never as a dead reader |
| Seats.WhoMayTakeTheSeat | src/raw_stream/seat.rs:163-200 | a seat is taken at once exactly when armed; a holder is displaced exactly by another peer while preemptible, and then it was stalled; any other dial changes nothing |
| Seats.AHandoffResolves | src/raw_stream/seat.rs:204-239 | from a hand-off the reader goes to the recorded dialer, back to the seat if it hung up, or to its end |
| Seats.AHandoffCanComplete | src/raw_stream/seat.rs:204-239 | from every hand-off with its dialer waiting, the displaced holder's drop if it still reads, its return, and the dialer's taking the grant can be taken in turn, and then the dialer holds the seat with the reader where the holder left it, or the input has ended |
| Seats.AnUntakenReaderComesBack | src/raw_stream/seat.rs:149-239 | a dialer that gives up with its guard already sent: the guard's return is enabled at once and re-arms the seat where the last holder stopped |
| Seats.TheSeatCanAlwaysComeBack | src/raw_stream/seat.rs:204-239 | from every reachable state whoever has the reader can let go of it, in steps each enabled in turn, after which the seat is armed or the input ended |
| Seats.NoThirdDialer | src/raw_stream/seat.rs:97-99 | over every run from a hand-off, the next holder made is the waiting dialer's and no other dialer gets the reader in between |
| Rings.Ring.Append | src/raw_stream_fanout.rs:172-183 | the buffer after an append is the specification's; the buffer's type holds `RING_BYTES` at most, so no assignment on the way, eviction and extension alike, may exceed it |
| Rings.TheRingIsTheTail | src/raw_stream_fanout.rs:163-183 | after appends of any sizes the ring holds exactly the last min(total, `RING_BYTES`) bytes, and base plus length is the total |
| Rings.CopyFromDeque | src/raw_stream_fanout.rs:401-417 | a copy across the deque's two slices is the wanted stretch of their concatenation |
| Rings.LookReadsTheHistory | src/raw_stream_fanout.rs:340-386 | a look returns the source's bytes at the cursor's offset, as many as there are and the buffer has room for; it loses bytes exactly when lapped by more than the ring, and sees the end exactly when closed and caught up |
| Rings.Cursor.Inspect | src/raw_stream_fanout.rs:340-386 | the cursor's fields after a look, and what it saw, are the specification's |
| Fanouts.Fanout.Open | src/raw_stream_fanout.rs:210-243 | attaches at the live edge and starts the pump for the first viewer; gives none exactly once the ring is closed |
| Fanouts.Fanout.StopPump | src/raw_stream_fanout.rs:282-294 | the three sections in this order: the reader is dropped, then the ring marked closed, then the viewers woken |
| Fanouts.Fanout.Carry | src/raw_stream_fanout.rs:266-281 | a chunk is appended first and the viewers woken after |
| Fanouts.Fanout.RunPump | src/raw_stream_fanout.rs:250-296 | the machine's steps it takes, in order, for every input; it appends all its source gives before its end, waiting on nobody, and exits exactly when released or at the end |
| Fanouts.Fanout.PollRead | src/raw_stream_fanout.rs:313-395 | the steps of a poll: it registers, then looks, and does both again only if a wake had already come; it gives the source's bytes where the viewer then stands, the lesser of what there is and the room there is; a pending poll is registered |
| Fanouts.APassIsTwoSteps | src/raw_stream_fanout.rs:328-386 | one pass of a poll is the machine's registration step and then its look step |
| Fanouts.RunKeepsInv | src/raw_stream_fanout.rs:186-396 | the fan-out's invariant over every interleaving of opens, pump sections, looks and leaves |
| Fanouts.ThePumpLetsGoInOrder | src/raw_stream_fanout.rs:246-296 | in every interleaving closed means the reader is already gone; the count is the live viewers; a pump stops only after a first viewer was counted, and an until-EOF one only at the end |
| Fanouts.AWatchedPumpStopsExactly | src/raw_stream_fanout.rs:246-262 | in every interleaving the pump lets go at the top of its loop if and only if it is a watched one and no viewer is left |
| Fanouts.StoppedAppendsNothing | src/raw_stream_fanout.rs:281-294 | once the pump has decided to stop nothing is ever appended again |
| Fanouts.ALateJoinerReadsNothing | src/raw_stream_fanout.rs:205-242 | a viewer that attaches after that decision stays at the live edge and reads nothing, in every continuation |
| Fanouts.ReadsNothingExactly | src/raw_stream_fanout.rs:246-296 | a viewer at the live edge reads nothing in every continuation if and only if the pump has decided to stop |
| Fanouts.AJoinerReadsNothingExactly | src/raw_stream_fanout.rs:205-242 | an `open` hands out a cursor that reads nothing in every continuation if and only if the pump had decided to stop when it was counted |
| Fanouts.OpenCanMissTheStop | src/raw_stream_fanout.rs:218-237 | a run in which `open` attaches a viewer to a pump already stopping |
| Fanouts.NoWakeIsLost | src/raw_stream_fanout.rs:320-394 | a pending viewer with something to see has had its wake, or the pump's next move is to send it |
| Fanouts.EveryByteIsAccountedFor | src/raw_stream_fanout.rs:313-396 | got plus lost is position minus attach point, and each piece is the source's bytes at its offset, after every earlier piece |
| Fanouts.OneLogLineAnEpisode | src/raw_stream_fanout.rs:348-381 | a loss is logged if and only if the viewer stood at the live edge since its every earlier loss |
| Fanouts.TheLogIsWholeExactly | src/raw_stream_fanout.rs:349-360 | over every run the log never overstates a viewer's loss, and states all of it if and only if it stood at the live edge between any two of its losses |
| Fanouts.TheLogCanUnderstate | src/raw_stream_fanout.rs:349-360 | a run of full-sized pump reads in which a viewer lapped twice in one episode loses 0x1FFFF bytes and logs 0x10000 |
| Fanouts.ViewersAreIndependent | src/raw_stream_fanout.rs:345-347 | one viewer's steps change neither the ring nor another viewer, and two viewers' steps commute |
| Fanouts.AViewerHoldsUpNobody | src/raw_stream_fanout.rs:345-347 | over any run, erasing every poll of one viewer leaves the ring, the pump, the count and every other viewer as they were |
| LossySources.Lossy.Open | src/raw_stream.rs:199-244 | the machine's steps the call takes, in order; which viewer is attached, what fails and what state is left, for every state and outcome of the one open; never "not armed" |
| LossySources.CallMeaning | src/raw_stream.rs:199-244 | what those steps come to in the machine: a viewer let in, or the source left as it was or re-armed |
| LossySources.NeverTwoReaders | src/raw_stream.rs:132-144 | opener and fan-out are never both there nor both gone, at most one reader is live over all sessions, a ready source opens once, and the loop takes at most two passes |
| LossySources.AFailedOpenStaysArmed | src/raw_stream.rs:191-198 | a failed or cancelled open leaves the source exactly as it found it |
| LossySources.TheSecondPassAttaches | src/raw_stream.rs:201-243 | once its open has succeeded a call's second pass attaches, as the first viewer of its session, whatever came between |
| LossySources.TheSecondPassIsTheLast | src/raw_stream.rs:201-243 | a second pass ends its call: with its open made, the viewer is let in as the first of a new session; without, the source is as it was |
| LossySources.ALiveSessionIsShared | src/raw_stream.rs:229-240 | while a session is not over no step replaces it |
| LossySources.ASessionGoesOnByItself | src/raw_stream.rs:199-244 | a session's pump and viewers take their own steps, whatever call is in progress, and touch nothing else |
| LiveCut.FlippingTwiceIsNothing | src/tunnel/cut.rs:267-276 | the sign twin differs in the sign bit alone and its twin is the key again |
| LiveCut.LeaseOfStream | src/tunnel/cut.rs:229-247 | a stream's bound is the first end among its caps, and unreadable if and only if some cap's is |
| LiveCut.AdmittedChains.RecordAll | src/tunnel/cut.rs:152-181 | all or nothing: the record with this stream kept, or unchanged with the reason |
| LiveCut.AdmittedChains.RecordProven | src/tunnel/cut.rs:183-189 | keeps the key and nothing else |
| LiveCut.RefusedExactly | src/tunnel/cut.rs:159-171 | a stream is refused its place if and only if an expiry cannot be read or the ids would pass `MAX_SESSION_CHAIN_IDS` |
| LiveCut.EveryCapIsGathered | src/tunnel/cut.rs:163-171 | the ids and roots gathered from a stream are those of every one of its caps and of nothing else |
| LiveCut.KeepingAddsExactlyThisStream | src/tunnel/cut.rs:89-106 | a record that is the union of some kept streams, by each cap's ids and root, is the union of those and this one once it is kept |
| LiveCut.LapsedExactly | src/tunnel/cut.rs:249-264 | the lease has lapsed if and only if some cap of some kept stream has run out, strictly before now |
| LiveCut.OrderAndRepetitionDoNotMatter | src/tunnel/cut.rs:93-95 | one peer's record depends only on which streams were kept, not on their order or number |
| LiveCut.KeepingAgainIsFree | src/tunnel/cut.rs:93-95 | presenting a kept stream again succeeds and changes nothing, even in a full record |
| LiveCut.SweepIsExact | src/tunnel/cut.rs:386-401 | a sweep spares a session if and only if no kept stream has a cap with a revoked id or root, a revoked peer or proven twin, an untrusted anchor or a past expiry |
| LiveCut.Culprit | src/tunnel/cut.rs:386-401 | the reason a sweep gives is true of some kept stream, and no reason asked about before it is true of any |
| Sessions.Session.Turn | src/tunnel/exposer.rs:578-626 | one turn of the loop for whichever arm is ready is the machine's step, settling included |
| Sessions.Session.Serve | src/tunnel/exposer.rs:577-628 | the loop over any sequence of events is the machine's run |
| Sessions.RunKeepsInv | src/tunnel/exposer.rs:573-628 | at most `MAX_STREAMS_PER_SESSION` pipes; a running session has streams to take or in flight; its record is the union of its served streams |
| Sessions.NothingBadOutlivesASweep | src/tunnel/exposer.rs:605-622 | after any run, a sweep ends the session if and only if something a served stream rests on is bad by then, and ends every pipe with it |
| Sessions.ADrainedSessionEnds | src/tunnel/exposer.rs:608-625 | once no more streams come, the session lasts exactly until its last pipe ends, however many sweeps fire |
| Sessions.OverIsOver | src/tunnel/exposer.rs:613-628 | a session that has ended does nothing more |
| Sessions.NoStreamComesAfterTheLast | src/tunnel/exposer.rs:575-599 | after the first failure to accept no stream ever arrives and none in flight is added |
| Sessions.ASessionTakesStreamsWhileItHasRoom | src/tunnel/exposer.rs:582-596 | until then a running session polls for a stream if and only if it has fewer than `MAX_STREAMS_PER_SESSION` in flight |
| Sessions.AStreamIsInFlightUntilItEnds | src/tunnel/exposer.rs:586-604 | a stream that arrives stays in flight until its own end or the session's cut |
| Sessions.AnEndedStreamIsGone | src/tunnel/exposer.rs:600-604 | a stream that has ended is never in flight again |
| Sessions.AStreamAsksOnce | src/tunnel/admit.rs:335-362 | a stream asks for its place in the record at most once |
| Routing.Router.BindGated | src/tunnel/router.rs:196-209 | refuses a proven-only handler, then a duplicate, and otherwise adds exactly this route |
| Routing.Router.ExtendParse | src/tunnel/router.rs:394-419 | entries are taken in order, each refused for the first thing wrong with it; what those before it bound stays bound |
| Routing.Router.Assemble | src/tunnel/router.rs:55-128 | each verb binds under its own access class |
| Routing.AVerbBindsItsOwn | src/tunnel/router.rs:55-128 | a verb succeeds if and only if its names are free and its handler may stand there, and then adds each of its names with its own target and floor and nothing else |
| Routing.AnEntryFailsExactly | src/tunnel/router.rs:394-419 | each reason an entry is refused for, and exactly when |
| Routing.AParseFailsAtTheFirst | src/tunnel/router.rs:394-419 | a failed parse has bound the entries before its first bad one and gives that one's reason |
| Routing.ATableIsItsVerbs | src/tunnel/router.rs:55-128 | an assembled table holds a route if and only if some verb declared it |
| Routing.AssembledTablesAreWellBound | src/tunnel/router.rs:196-221 | however a table is assembled, proven-only handlers stand exactly on proven-only routes, and no verb moves a route that is there |
| Exposing.ProveUnsafe | src/tunnel/router.rs:579-619 | succeeds if and only if every name is a served raw source its guard passes; a failure names a true offence |
| Exposing.ProvePublic | src/tunnel/router.rs:627-681 | succeeds if and only if every name is a served, floorless, open-safe handler; a failure names a true offence |
| Exposing.Prove | src/tunnel/exposer.rs:154-259 | succeeds if and only if every interlock holds; a failure is true of the route it names and nothing is wrong at any earlier stage |
| Exposing.SoundExactly | src/tunnel/exposer.rs:154-259 | the door lets through exactly the tables no refusal of its is true of |
| Exposing.Expose | src/tunnel/router.rs:180-192 | from verbs to node: there is one if and only if every verb binds and every interlock holds, and its routes are exactly those the verbs declared |
| Exposing.CatalogRows | src/tunnel/router.rs:158-178 | the rows ascend by name and are the table's with their postures, and the self row, gated, where it belongs |
| Exposing.ManifestRows | src/tunnel/exposer.rs:298-341 | the rows are the routes with their proven postures, in strictly ascending order of name |
| Listings.ListingsAgree | src/tunnel/exposer.rs:339-341 | any two listings of one view in ascending order of name are equal row for row |
| Listings.LessExactly | src/tunnel/exposer.rs:339-341 | a name comes before another if and only if it begins it or has the smaller character where they part |
| Exposing.TheCatalogForeseesTheManifest | src/tunnel/router.rs:158-178 | a catalog drawn before its own member row is bound is, row for row and in order, the finished node's banner |
| Admission.PermitPools.AdmitStream | src/tunnel/admit.rs:667-823 | the ruling, the pools and the session's standing are the specification's, whichever way in |
| Admission.PermitPools.AdmitOpen | src/tunnel/admit.rs:694-726 | takes a stream permit and, for a session not yet classed, a session permit, or neither when either is not to be had |
| Admission.PublicSession.Enter | src/tunnel/exposer.rs:521-534 | a session takes at most one permit, on its first open stream |
| Admission.ARefusalCostsNothing | src/tunnel/admit.rs:694-757 | a refused admission leaves every pool and the session as it found them |
| Admission.GatedRulingsIgnoreThePools | src/tunnel/admit.rs:758-823 | a gated or absent name is ruled on alike whatever the pools hold, and takes no permit |
| Admission.AStrangerNeverMeetsThePool | src/tunnel/admit.rs:727-757 | on a proven-only route only a dialer with nothing else against it takes a slot or can find the pool full |
| Admission.WhatIsKeptIsWhatWasRuledOn | src/tunnel/admit.rs:777-815 | the caps kept are exactly those the rooted gate was asked about, the slip first; other ways in keep none |
| Admission.AGatedDialIsRuledOnItsTokens | src/tunnel/admit.rs:758-823 | for a proven peer at a rooted gate: slip and badge together for an authority-bound slip with a badge, the slip alone otherwise whatever the second slot holds, no token when there is none, and a refusal for one that counts and does not parse |
| Admission.AnUngatedDialIsNotRuledOn | src/tunnel/admit.rs:758-823 | an unproven peer is refused by a rooted gate, and an open one admits all but a token that counts and does not parse |
| Admission.AnOpenedDialNeedsOnlyRoom | src/tunnel/admit.rs:694-726 | an opened name admits if and only if both permits can be had, openly and with nothing kept |
| Admission.AProvenRouteRefusesExactly | src/tunnel/admit.rs:727-757 | each refusal of a proven-only route, and exactly when; who is admitted holds a slot under its own key |
| Admission.AnUnusableKeyIsRefusedFirst | src/tunnel/admit.rs:667-684 | a key the gate cannot use is refused before any route is looked at, and only such a key is refused so |
| Admission.AnAdmittedStreamIsInFlight | src/tunnel/exposer.rs:488-534 | a stream of an open session is in flight with what it was admitted on if and only if it is admitted |
| Admission.AnEndedStreamGivesItsPermitBack | src/tunnel/exposer.rs:488-534 | a stream that ends gives back the one permit it holds, and an open still running its own |
| Admission.AnOpeningTakesOnePermit | src/tunnel/admit.rs:284-311 | an open holds one open permit while it runs, and without one does not start |
| Admission.PermitsAreConserved | src/tunnel/exposer.rs:488-534 | over every run free plus held is capacity in each pool, one session permit a session, and a proven slot only for a key that passed the store and the route |
| Admission.AnEmptyNodeIsFull | src/tunnel/exposer.rs:488-534 | with every session over, every pool is full again |
| Serving.ResolveSingleService | src/tunnel/admit.rs:829-839 | another name means the sole service of a one-service node, and on any other node itself |
| Serving.Context.Prepare | src/tunnel/admit.rs:229-333 | disabled, unknown, floor, then source or ceiling, in that order; the open permit is back afterwards |
| Serving.Context.ServeAdmitted | src/tunnel/admit.rs:182-365 | outcome, pools, session and record after a dial are the specification's |
| Serving.Context.ServeRequest | src/tunnel/admit.rs:103-381 | octets in to octets out: the outcome and state are the specification's, and what is written is that outcome's answer |
| Serving.ARefusedStreamLeavesNoTrace | src/tunnel/admit.rs:335-362 | a refused stream changes no record and returns its own permits; only the session's public permit may stay |
| Serving.AServedStreamIsKept | src/tunnel/admit.rs:344-362 | every served stream of a wired session is on its record, under the session's key |
| Serving.WhatIsKeptIsWhatItRestsOn | src/tunnel/admit.rs:335-362 | what is kept of a stream is good if and only if every cap it was ruled on and the key it rests on still are |
| Serving.ARequestIsRuledOnItsOwnTokens | src/tunnel/admit.rs:103-235 | from octets to ruling on a gated name: the gate is asked of the request's own first slot as slip and second as badge, for the name it asks for |
| Serving.ABadNameIsToldSo | src/tunnel/admit.rs:156-173 | a name outside the grammar is answered as a bad request naming it, and changes nothing |
| Serving.ThePublishedUndecided | PROTOCOL.md:495-513 | the answer of a gate that did not decide is the octets the specification publishes |
| Serving.RefusalsReadAlike | src/tunnel/admit.rs:531-585 | any two nodes that refuse one well-formed request for any uniform cause write the same two octets |
| Serving.WhatTheWireTells | src/tunnel/admit.rs:531-585 | a well-formed request is answered reached, not admitted or unavailable, and each exactly for its own outcomes |
| Serving.OnlyTheAdmittedHearOfASource | src/tunnel/admit.rs:284-311 | the unavailable answer of a raw source goes only to an admitted dialer of an enabled raw route |
| Serving.UnreadableHeads | src/tunnel/admit.rs:131-155 | an unreadable whole head is answered if and only if it is this identity on another version, and changes nothing |
| Assembly.AnOpenedStreamIsRefusedExactly | src/tunnel/admit.rs:219-311 | a stream let in on an opened name is refused after that if and only if the name is disabled or is a raw source that cannot be opened |
| Assembly.ARefusedStreamEntersExactly | src/tunnel/admit.rs:694-726 | a refused stream takes its session's public permit if and only if it was let in on an opened name, the first of its session to be |
| Assembly.ADisabledNameCostsASessionPermit | src/tunnel/admit.rs:219-235 | an opened name that is off: the first dial is refused as disabled and the node is a session permit short |
| Assembly.AnOpenGateRefusesAMalformedToken | src/tunnel/admit.rs:777-780 | under an open gate the same dial is served with no token and refused with one that does not parse |
| Assembly.ASourceIsUnavailableExactly | src/tunnel/admit.rs:284-311 | on an accepted node that answer is given if and only if the dialer is admitted to an enabled raw stream and no open permit or no source is to be had |
| Assembly.ServedExactly | src/tunnel/exposer.rs:140-259 | on an accepted node with room, a dialer gets past everything on a route if and only if the route is for it |
| Assembly.TheFirstCauseIsGiven | src/tunnel/admit.rs:219-362 | past admission each cause is given if and only if it holds and none before it does |
| Assembly.ServedSafely | src/tunnel/exposer.rs:140-259 | a `Never` handler is served only to a rooted witness the gate ruled for, a member route only to a member, a proven-only route only to a proven, known, unrevoked key |
| Assembly.AMemberVerbServesMembersOnly | src/tunnel/router.rs:55-128 | whatever else is declared, a name bound for members is served only to a dialer the rooted gate calls a member |
| Assembly.NoRouteIsDead | src/tunnel/exposer.rs:140-153 | on every accepted route somebody gets past everything |
| Assembly.PosturesAgree | src/tunnel/exposer.rs:298-341 | catalog, manifest and whether a tokenless announced dialer is served agree on every name |
| Assembly.ProveSecurity | src/tunnel/exposer.rs:343-363 | a rooted gate is armed only over a transport that proves its peers |
| Assembly.AnAnnouncedTransportReachesOnlyTheOpened | src/tunnel/exposer.rs:343-363 | over one that does not, a rooted node would serve its opened names and nothing else |
| Assembly.WhatTheDoorCallsDeadIsDead | src/tunnel/exposer.rs:160-241 | a route the door refuses as keyless, member-only or proven-only would have served nobody |
| Assembly.WhatTheDoorCallsExposedIsExposed | src/tunnel/exposer.rs:190-210 | a raw source the door refuses would have served any stranger |
| LiveSessions.RunKeepsInv | src/tunnel/exposer.rs:577-628 | over every interleaving of a session's streams: each is let in before it opens or records anything, none records twice, each serves at its place what it was let in on, and the session loop's own invariant holds |
| LiveSessions.AReadyStreamIsRecordedExactly | src/tunnel/admit.rs:335-362 | in any such state a stream whose target is open gets the next place if and only if the record takes what it was let in on; otherwise it is turned away for the record's reason and the record is unchanged |
| LiveSessions.AStreamKeepsItsLetting | src/tunnel/admit.rs:103-365 | over every run a stream goes by the letting of its own hearing, from its opening to its place |
| LiveSessions.OneHearing | src/tunnel/admit.rs:103-155 | a stream is let in at one event of a run and on one letting |
| LiveSessions.TheRecordIsFromOctets | src/tunnel/admit.rs:103-365 | however the streams interleave, the record is the union of the served streams, each stream that got its place serves there exactly what its own octets let it in on, and each place is one such stream's and no other's |
| LiveSessions.TheLiveCut | src/tunnel/cut.rs:386-401 | after any such run a sweep ends the session, and every stream with it, if and only if a cap some recorded stream was ruled on has a revoked id or root or has run out, its first root is no longer trusted, or the key it rests on is revoked; otherwise it changes nothing |
| LiveSessions.TheLoopIsTheLoop | src/tunnel/exposer.rs:577-628 | the loop under every such run is a run of the session loop |
| LiveSessions.AStreamAloneIsServed | src/tunnel/admit.rs:103-365 | with nothing in between, a stream's three parts leave the record, the session's standing and the outcome that serving it whole does |
| Utf8.ValidExactly | src/protocol.rs:434-440 | the well-formed octet sequences are exactly the encodings of sequences of scalar values |
| Protocol.AllBetween | src/protocol.rs:38-50 | whether a non-empty run of octets lies within bounds |
| Protocol.TheMagicSplitsByRule | src/protocol.rs:28-36 | the magic keeps its rule: a run of capitals, which is its maximal one and the identity, then digits, four octets in all |
| Protocol.WriteRequest | src/protocol.rs:157-165 | a request that fits is written as its frame; one that does not leaves exactly the stated prefix |
| Protocol.WriteChecked | src/protocol.rs:177-195 | a credential toward an announced peer writes no octet, and nothing else is refused |
| Protocol.ReadRequest | src/protocol.rs:203-219 | the value read and what remains are the parser's, on failure too; identity judged before version |
| Protocol.WriteResponse | src/protocol.rs:294-309 | the frame is settled before an octet moves; a class without a code writes nothing |
| Protocol.ReadResponse | src/protocol.rs:312-337 | the value read and what remains are the parser's, on failure too |
| Protocol.RequestRoundTrips | src/protocol.rs:156-219 | reading a written request followed by anything gives it back and exactly what follows |
| Protocol.RequestIsCanonical | src/protocol.rs:203-219 | whatever reads as a request is octet for octet what its writer emits |
| Protocol.RequestsArePrefixFree | src/protocol.rs:156-219 | no request is the beginning of another |
| Protocol.ATornRequestNeverReads | src/protocol.rs:157-165 | what a failed write leaves never reads as a request |
| Protocol.ATornWriteStopsAtTheLongField | src/protocol.rs:157-165 | a failed write has sent exactly the frame down to the octet before the length of the field that is too long |
| Protocol.AVerdictIsFinal | src/protocol.rs:203-219 | a reader's verdict stands whatever follows, unless it is that the stream ended too soon |
| Protocol.NoReaderWaitsPastTheWidestFrame | PROTOCOL.md:115-133 | that verdict is never given to 196617 octets or more |
| Protocol.TheHeadIsJudgedByItsRun | src/protocol.rs:77-85 | a whole head gets a version refusal if and only if its maximal capital run is `TB` and its version is not `04`, and is foreign if and only if that run is another |
| Protocol.AShortHeadIsNotAnswered | src/protocol.rs:268-290 | a head that ends early is never answered |
| Protocol.ResponseRoundTrips | src/protocol.rs:294-337 | every encodable response reads back as itself whatever follows |
| Protocol.ResponseIsCanonical | src/protocol.rs:312-337 | whatever reads as a response is what its writer emits |
| Protocol.AnAnswerIsKnownInTime | src/protocol.rs:312-337 | the same for a response; a detail claimed longer than 1024 octets is refused unread, and an unknown tag or code at once |
| Protocol.FramesAreBounded | PROTOCOL.md:115-200 | requests are at most 196617 octets and responses 1028, and both are reached |
| Protocol.ThePublishedRequest | PROTOCOL.md:417-433 | the minimal request is the eleven octets the specification publishes |
| Protocol.ThePublishedCredentials | PROTOCOL.md:434-459 | the request with both slots filled is the octets the specification publishes, the capability first |
| Protocol.ThePublishedAnswers | PROTOCOL.md:173-205 | the four answers are laid out as the specification publishes |
| Protocol.ThePublishedHeads | PROTOCOL.md:515-571 | the published heads read as another version, as foreign and as foreign, whatever follows |
| Protocol.ThePublishedSkew | src/protocol.rs:96-103 | the tags are escaped as the host renders them, and the published mismatch detail is its 110 octets of text |
| Protocol.ATagNamesItsVersion | src/protocol.rs:96-103 | two versions rendered alike are the same version, however they are escaped |
| Catalog.Encode | src/tunnel/catalog.rs:170-203 | succeeds if and only if both bounds hold, with the layout's octets; the name blamed is the first too long |
| Catalog.Decode | src/tunnel/catalog.rs:208-231 | total on every blob, the cursor never past its end, with the parser's answer |
| Catalog.DecodeInvertsEncode | src/tunnel/catalog.rs:158-231 | a catalog that encodes decodes to itself |
| Catalog.AcceptedBlobsAreCanonical | src/tunnel/catalog.rs:205-231 | a blob that decodes is within bounds and re-encodes to itself |
| Catalog.TheBlobBoundIsExact | src/tunnel/catalog.rs:97-121 | no accepted blob is longer than `MAX_CATALOG_BLOB`, and one is that long |
| Catalog.TheLayout | src/tunnel/catalog.rs:64-74 | one catalog's octets, field by field, with both postures |
| Catalog.TheBoundsAreAskedFirst | src/tunnel/catalog.rs:208-231 | the count and each name length are bounded before what they count is taken |
| Catalog.DecodeDoesNotAskForOrder | src/tunnel/catalog.rs:205-231 | an accepted blob with names out of order and repeated |
| DisabledList.LineByLine | src/enabled.rs:221-232 | each line of the file contributes the name it holds, whitespace aside, or nothing |
| DisabledList.ANameIsDisabledExactly | src/enabled.rs:221-232 | a name is disabled if and only if it stands on some line of the file, the last one included, with nothing but white space on either side |
| ServiceNames.ThePublishedNames | PROTOCOL.md:135-150 | both bounds on length, every separator the grammar allows, and characters it does not |
| DisabledList.WrittenNamesReadBack | src/enabled.rs:221-232 | a list written one name a line reads back as those names and no others |
| DisabledList.FileDisabledList.Refresh | src/enabled.rs:118-152 | debounce, stat, compare, read: the set, stamp and time kept are the specification's, and every doubt keeps the set |
| DisabledList.FileDisabledList.IsEnabled | src/enabled.rs:106-116 | a name is enabled exactly when the refreshed set lacks it |
| DisabledList.TheListIsAlwaysSomeVersion | src/enabled.rs:62-65 | over every history: with a file there at the load, the set is always the parse of a version the file really had; with none, that or, until the first read, empty |
| DisabledList.TheListIsWhatWasLastRead | src/enabled.rs:62-65 | over every history the set is the parse of the version last read, at the load or by a check, and the stamp that of the version it statted |
| DisabledList.OnlyAReadReEnables | src/enabled.rs:122-125 | a name leaves the set only through a check that read a version in place which does not list it |
| DisabledList.DeletionNeverReEnables | src/enabled.rs:122-125 | once the file is gone, no deletions, failures or checks change the set |
| DisabledList.FreshExactly | src/enabled.rs:136-152 | an undisturbed check past the debounce agrees with the file if and only if the stamp moved or it agreed already |
| DisabledList.ACheckIsDueOnceAnInterval | src/enabled.rs:126-136 | a check that is due puts the next off by the debounce whatever it finds, and one that is not changes nothing |
| DisabledList.AnUndisturbedCheckAgrees | src/enabled.rs:86-152 | after any history of distinctly dated replacements, the first such check agrees with the file |
| DisabledList.AWornStampIsNeverReread | src/enabled.rs:142-144 | a file whose stamp is already worn is never read again |
| DisabledList.ATwinStampIsNeverReread | src/enabled.rs:142-144 | a replacement that wears the replaced version's stamp is never read, so the list agrees with it if and only if both disable the same names |
| DisabledList.AnEditWithinATickIsNeverSeen | src/enabled.rs:71-78 | one name exchanged for another of its length within one tick: the old one stays disabled for good |
| DisabledList.AnUndatedFileIsNeverSeen | src/enabled.rs:136-144 | without modification times a file that appears later is never read |
| DisabledList.ARewriteUnderALoadIsNeverSeen | src/enabled.rs:200-219 | a file rewritten in place under a load pairs old names with its new stamp for good |

## Left out

- The async runtime, channels and wakers as such: only the contract listed under Assumptions.
- Guarded opens (`src/raw_stream/guarded.rs`): an open succeeds with a reader or fails.
- Identity, configuration and peer resolution (`src/identity.rs`, `src/config.rs`, `src/peer.rs`).
- nauthy's token parsing, signatures and rulings, and bifrost's transports: parameters.
- The connector, the splices and the built-in handlers: byte pumping over sockets and stdio.
- The first-traffic deadline and the watched halves (`src/tunnel/admit.rs:849-947`): one bit and one timer.
- The proven stream's deadline, the request read timeout and the session's close call: timers that drop a stream, which the
  model has as a stream ending; a timed-out read is a stream answered with nothing.
- The node's accept loop (`src/tunnel/exposer.rs:380-465`): its cap on sessions has the shape of the session loop's cap on streams.
- The target grammar's strings: an entry comes split, with its target resolved or not.
- The wording of two refusal details, for a name that is none and for a source that fails: parameters. The version mismatch
  and the undecided gate have the program's own fixed text.
- Metering caveats, target kinds and raw-source paths in the manifest: read off the route as declared.
- The ring's 64-bit offsets: modelled unbounded, so wrap-around after 2^64 bytes is not captured.
- Viewers and pump of a fan-out as separate heap objects: `Fanout` owns its ring object but holds its viewers by
  index, so two of its cursors cannot be one object; a cursor as an object of its own is `Cursor` in `ring.dfy`.
- `LiveSessions` on heap objects: `Context` serves one stream whole; the interleaving is proved on values, and a stream
  alone comes to the same (`AStreamAloneIsServed`).
- Serving.RefusalsReadAlike: does not state that refusals take equally long, because the model has no execution time.
