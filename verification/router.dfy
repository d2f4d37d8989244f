/** What the node asks of its gate: rulings are the gate's own, and only their shape is fixed here. */
module Gates {
  import opened Wrappers
  import opened ServiceNames
  import opened LiveCut

  datatype Origin = Rooted | Open | Proven

  datatype Witness = Witness(origin: Origin, member: bool, peer: Key)

  datatype Refusal = Missing | NotGranted | Revoked | Undecided

  /**
    An open gate asks nothing; a rooted one rules on what is presented, alone or with a badge, and says whether
    the dialer is a whole-node member. Its store holds what has been revoked.
  */
  datatype Gate =
    | OpenGate
    | RootedGate(single: (Key, Option<Cap>, Service) -> Result<bool, Refusal>,
                 foreign: (Key, Cap, Cap, Service) -> Result<bool, Refusal>,
                 store: Denylist)
  {
    predicate WantsCapability() { RootedGate? }

    function Ruled(peer: Key, ruling: Result<bool, Refusal>): Result<Witness, Refusal> {
      match ruling
      case Success(member) => Success(Witness(Rooted, member, peer))
      case Failure(refusal) => Failure(refusal)
    }

    function AdmitWitnessed(peer: Key, cap: Option<Cap>, service: Service): Result<Witness, Refusal> {
      if OpenGate? then Success(Witness(Open, false, peer)) else Ruled(peer, single(peer, cap, service))
    }

    function AdmitForeignWitnessed(peer: Key, slip: Cap, badge: Cap, service: Service): Result<Witness, Refusal> {
      if OpenGate? then Success(Witness(Open, false, peer)) else Ruled(peer, foreign(peer, slip, badge, service))
    }

    /** Whether the store still takes a proven key: neither it nor its sign twin is revoked. */
    predicate Takes(key: Key)
      requires RootedGate?
    {
      key !in store.keys && FlipSign(key) !in store.keys
    }

    function ProvenWitness(key: Key): Result<Witness, Refusal> {
      if OpenGate? then Failure(NotGranted)
      else if Takes(key) then Success(Witness(Proven, false, key))
      else Failure(Revoked)
    }
  }

  /** The key a revocation could find a witness by; only a proven witness names one. */
  function RevocablePeer(w: Witness): Option<Key> {
    if w.origin.Proven? then Some(w.peer) else None
  }
}

/** The route table and the verbs that fill it (src/tunnel/router.rs, tightbeam-handler/src/open_policy.rs). */
module Routing {
  import opened Wrappers
  import opened ServiceNames
  import opened LiveCut
  import opened Gates

  /** What a handler's author says its code may face. */
  datatype Marker = Never | OptIn | ProvenOnly {
    predicate OpenSafe() { OptIn? }

    predicate Accepts(origin: Origin) {
      match this
      case Never => origin.Rooted?
      case OptIn => origin.Rooted? || origin.Open?
      case ProvenOnly => origin.Proven?
    }
  }

  /** A handler, or a raw byte source; `sound` says whether the source guard passes it as it stands. */
  datatype Target = Handler(marker: Marker) | RawStream(sound: bool) {
    predicate OpenSafe() { Handler? && marker.OpenSafe() }
  }

  /** What a route asks beyond the gate; a proven-only route carries its own check on keys. */
  datatype Access = Family | Member | ProvenRoute(knows: Key -> bool)

  datatype Route = Route(target: Target, access: Access)

  type Table = map<Service, Route>

  datatype BindError =
    | AlreadyDefined(name: string)
    | ProvenOnlyHandler(name: string)
    | Nameless
    | BadName(name: string)
    | BadTarget

  /** An entry of the `name=target` grammar, split and with its target resolved; built-ins are handlers. */
  datatype Entry = NoName | Entry(name: string, target: Option<Target>)

  datatype Verb =
    | BindService(name: Service, marker: Marker)
    | BindMember(name: Service, marker: Marker)
    | BindProven(name: Service, knows: Key -> bool)
    | BindRaw(name: Service, sound: bool)
    | Parse(entries: seq<Entry>)

  function Bound(t: Table, name: Service, target: Target, access: Access): Result<Table, BindError> {
    if name in t then Failure(AlreadyDefined(name)) else Success(t[name := Route(target, access)])
  }

  function BoundGated(t: Table, name: Service, marker: Marker, access: Access): Result<Table, BindError> {
    if marker.Accepts(Proven) then Failure(ProvenOnlyHandler(name)) else Bound(t, name, Handler(marker), access)
  }

  function Parsed(t: Table, entry: Entry): Result<Table, BindError> {
    if entry.NoName? then Failure(Nameless)
    else if !IsName(entry.name) then Failure(BadName(entry.name))
    else if entry.name in t then Failure(AlreadyDefined(entry.name))
    else if entry.target.None? then Failure(BadTarget)
    else Success(t[entry.name := Route(entry.target.value, Family)])
  }

  function ParsedAll(t: Table, entries: seq<Entry>): Result<Table, BindError>
    decreases |entries|
  {
    if entries == [] then Success(t)
    else match Parsed(t, entries[0])
      case Failure(e) => Failure(e)
      case Success(more) => ParsedAll(more, entries[1..])
  }

  /** The table as the entries before the first one refused leave it. */
  function ParsedBefore(t: Table, entries: seq<Entry>): Table
    decreases |entries|
  {
    if entries == [] || Parsed(t, entries[0]).Failure? then t
    else ParsedBefore(Parsed(t, entries[0]).value, entries[1..])
  }

  function Assembled(t: Table, verb: Verb): Result<Table, BindError> {
    match verb
    case BindService(name, marker) => BoundGated(t, name, marker, Family)
    case BindMember(name, marker) => BoundGated(t, name, marker, Member)
    case BindProven(name, knows) => Bound(t, name, Handler(ProvenOnly), ProvenRoute(knows))
    case BindRaw(name, sound) => Bound(t, name, RawStream(sound), Family)
    case Parse(entries) => ParsedAll(t, entries)
  }

  function AssembleAll(verbs: seq<Verb>): Result<Table, BindError> {
    if verbs == [] then Success(map[])
    else match AssembleAll(verbs[..|verbs| - 1])
      case Failure(e) => Failure(e)
      case Success(t) => Assembled(t, verbs[|verbs| - 1])
  }

  /** The assembly itself: one table, filled in place. A verb that fails ends the assembly. */
  class Router {
    const gate: Gate
    var services: Table
    var public: set<Service>
    var publicUnsafe: set<Service>

    constructor (gate: Gate)
      ensures services == map[] && public == {} && publicUnsafe == {} && this.gate == gate
    {
      this.gate := gate;
      services, public, publicUnsafe := map[], {}, {};
    }

    /** Declare these names open to anyone; a later declaration replaces an earlier one. */
    method RequestPublic(names: set<Service>)
      modifies this`public
      ensures public == names
    {
      public := names;
    }

    method RequestPublicUnsafe(names: set<Service>)
      modifies this`publicUnsafe
      ensures publicUnsafe == names
    {
      publicUnsafe := names;
    }

    method Bind(name: Service, target: Target, access: Access) returns (r: Result<(), BindError>)
      modifies this`services
      ensures match Bound(old(services), name, target, access)
              case Success(t) => r.Success? && services == t
              case Failure(e) => r == Failure(e) && services == old(services)
    {
      if name in services {
        return Failure(AlreadyDefined(name));
      }
      services := services[name := Route(target, access)];
      r := Success(());
    }

    method BindGated(name: Service, marker: Marker, access: Access) returns (r: Result<(), BindError>)
      modifies this`services
      ensures match BoundGated(old(services), name, marker, access)
              case Success(t) => r.Success? && services == t
              case Failure(e) => r == Failure(e) && services == old(services)
    {
      if marker.Accepts(Proven) {
        return Failure(ProvenOnlyHandler(name));
      }
      r := Bind(name, Handler(marker), access);
    }

    method ExtendParse(entries: seq<Entry>) returns (r: Result<(), BindError>)
      modifies this`services
      ensures match ParsedAll(old(services), entries)
              case Success(t) => r.Success? && services == t
              case Failure(e) => r == Failure(e) && services == ParsedBefore(old(services), entries)
    {
      var i := 0;
      while i < |entries|
        invariant 0 <= i <= |entries|
        invariant ParsedAll(old(services), entries) == ParsedAll(services, entries[i..])
        invariant ParsedBefore(old(services), entries) == ParsedBefore(services, entries[i..])
      {
        var entry := entries[i];
        assert entries[i..][1..] == entries[i + 1..];
        if entry.NoName? {
          return Failure(Nameless);
        }
        if !IsName(entry.name) {
          return Failure(BadName(entry.name));
        }
        if entry.name in services {
          return Failure(AlreadyDefined(entry.name));
        }
        if entry.target.None? {
          return Failure(BadTarget);
        }
        services := services[entry.name := Route(entry.target.value, Family)];
        i := i + 1;
      }
      r := Success(());
    }

    method Assemble(verb: Verb) returns (r: Result<(), BindError>)
      modifies this`services
      ensures match Assembled(old(services), verb)
              case Success(t) => r.Success? && services == t
              case Failure(e) =>
                && r == Failure(e)
                && services == if verb.Parse? then ParsedBefore(old(services), verb.entries) else old(services)
    {
      match verb
      case BindService(name, marker) => r := BindGated(name, marker, Family);
      case BindMember(name, marker) => r := BindGated(name, marker, Member);
      case BindProven(name, knows) => r := Bind(name, Handler(ProvenOnly), ProvenRoute(knows));
      case BindRaw(name, sound) => r := Bind(name, RawStream(sound), Family);
      case Parse(entries) => r := ExtendParse(entries);
    }
  }

  // ----- what a verb binds -----------------------------------------------------------------------------

  /** The verb gives this name this route. */
  ghost predicate Binds(verb: Verb, name: Service, route: Route) {
    match verb
    case BindService(n, marker) => name == n && route == Route(Handler(marker), Family)
    case BindMember(n, marker) => name == n && route == Route(Handler(marker), Member)
    case BindProven(n, knows) => name == n && route == Route(Handler(ProvenOnly), ProvenRoute(knows))
    case BindRaw(n, sound) => name == n && route == Route(RawStream(sound), Family)
    case Parse(entries) => exists target :: Entry(name, Some(target)) in entries && route == Route(target, Family)
  }

  /** Entry `i` has a name of its own and a target. */
  ghost predicate Bindable(t: Table, entries: seq<Entry>, i: nat)
    requires i < |entries|
  {
    && entries[i].Entry? && IsName(entries[i].name) && entries[i].target.Some?
    && entries[i].name !in t && forall j :: 0 <= j < i && entries[j].Entry? ==> entries[j].name != entries[i].name
  }

  /** What the verb asks of the table it is given. */
  ghost predicate MayBind(t: Table, verb: Verb) {
    match verb
    case BindService(n, marker) => n !in t && marker != ProvenOnly
    case BindMember(n, marker) => n !in t && marker != ProvenOnly
    case BindProven(n, _) => n !in t
    case BindRaw(n, _) => n !in t
    case Parse(entries) => forall i: nat :: i < |entries| ==> Bindable(t, entries, i)
  }

  ghost predicate Has(t: Table, name: Service, route: Route) { name in t && t[name] == route }

  /** `more` has the routes of `t` and what the verb binds, and no others. */
  ghost predicate Adds(t: Table, verb: Verb, more: Table) {
    forall name: Service, route: Route ::
      Has(more, name, route) <==> Has(t, name, route) || Binds(verb, name, route)
  }

  /** An entry is refused for the first thing wrong with it. */
  lemma AnEntryFailsExactly(t: Table, entry: Entry)
    ensures var r := Parsed(t, entry);
            && (r == Failure(Nameless) <==> entry.NoName?)
            && (entry.Entry? ==>
                  && (r == Failure(BadName(entry.name)) <==> !IsName(entry.name))
                  && (r == Failure(AlreadyDefined(entry.name)) <==> IsName(entry.name) && entry.name in t)
                  && (r == Failure(BadTarget) <==> IsName(entry.name) && entry.name !in t && entry.target.None?))
            && (r.Success? <==> Bindable(t, [entry], 0))
  {}

  lemma OneEntryOn(t: Table, entries: seq<Entry>)
    requires entries != [] && Bindable(t, entries, 0)
    ensures var more := t[entries[0].name := Route(entries[0].target.value, Family)];
            && MayBind(t, Parse(entries)) == MayBind(more, Parse(entries[1..]))
  {
    var more := t[entries[0].name := Route(entries[0].target.value, Family)];
    if MayBind(t, Parse(entries)) {
      forall i: nat | i < |entries[1..]| ensures Bindable(more, entries[1..], i) {
        assert Bindable(t, entries, i + 1);
      }
    }
    if MayBind(more, Parse(entries[1..])) {
      forall i: nat | i < |entries| ensures Bindable(t, entries, i) {
        if i > 0 {
          assert Bindable(more, entries[1..], i - 1);
          assert forall j :: 1 <= j < i ==> entries[j] == entries[1..][j - 1];
        }
      }
    }
  }

  lemma TheFirstEntryAdds(t: Table, entries: seq<Entry>, u: Table)
    requires entries != [] && Bindable(t, entries, 0)
    requires Adds(t[entries[0].name := Route(entries[0].target.value, Family)], Parse(entries[1..]), u)
    ensures Adds(t, Parse(entries), u)
  {
    var first := Route(entries[0].target.value, Family);
    var more := t[entries[0].name := first];
    forall name: Service, route: Route
      ensures Has(u, name, route) <==> Has(t, name, route) || Binds(Parse(entries), name, route)
    {
      assert Has(u, name, route) <==> Has(more, name, route) || Binds(Parse(entries[1..]), name, route);
      EntriesSplit(entries, name, route);
      if name == entries[0].name && route != first {
        assert name !in t;
      }
    }
  }

  lemma EntriesSplit(entries: seq<Entry>, name: Service, route: Route)
    requires entries != [] && entries[0].Entry? && entries[0].target.Some?
    ensures Binds(Parse(entries), name, route)
       <==> (name == entries[0].name && route == Route(entries[0].target.value, Family))
            || Binds(Parse(entries[1..]), name, route)
  {
    assert entries == [entries[0]] + entries[1..];
    if target :| Entry(name, Some(target)) in entries && route == Route(target, Family) {
      assert Entry(name, Some(target)) == entries[0] || Entry(name, Some(target)) in entries[1..];
    }
    assert entries[0] in entries && entries[0] == Entry(entries[0].name, Some(entries[0].target.value));
  }

  lemma {:induction false} ParsingAddsExactly(t: Table, entries: seq<Entry>)
    ensures ParsedAll(t, entries).Success? <==> MayBind(t, Parse(entries))
    ensures ParsedAll(t, entries).Success? ==> Adds(t, Parse(entries), ParsedAll(t, entries).value)
    decreases |entries|
  {
    if entries != [] {
      assert entries == [entries[0]] + entries[1..];
      AnEntryFailsExactly(t, entries[0]);
      if Parsed(t, entries[0]).Success? {
        OneEntryOn(t, entries);
        ParsingAddsExactly(Parsed(t, entries[0]).value, entries[1..]);
        if ParsedAll(t, entries).Success? {
          TheFirstEntryAdds(t, entries, ParsedAll(t, entries).value);
        }
      } else {
        assert !Bindable(t, entries, 0);
      }
    }
  }

  /**
    A verb succeeds exactly when its names are free and its handler may stand where it puts it, and then it adds each
    of its names with its own target and floor, and nothing else.
  */
  lemma AVerbBindsItsOwn(t: Table, verb: Verb)
    ensures Assembled(t, verb).Success? <==> MayBind(t, verb)
    ensures Assembled(t, verb).Success? ==> Adds(t, verb, Assembled(t, verb).value)
    ensures Assembled(t, verb).Failure? && !verb.Parse? ==>
              Assembled(t, verb).error
              == if (verb.BindService? || verb.BindMember?) && verb.marker == ProvenOnly
                 then ProvenOnlyHandler(verb.name) else AlreadyDefined(verb.name)
  {
    if verb.Parse? {
      ParsingAddsExactly(t, verb.entries);
    }
  }

  /** A parse that fails has bound the entries before its first bad one, and says what is wrong with that one. */
  lemma {:induction false} AParseFailsAtTheFirst(t: Table, entries: seq<Entry>) returns (i: nat)
    requires ParsedAll(t, entries).Failure?
    ensures i < |entries| && ParsedAll(t, entries[..i]) == Success(ParsedBefore(t, entries))
    ensures Parsed(ParsedBefore(t, entries), entries[i]).Failure?
    ensures ParsedAll(t, entries).error == Parsed(ParsedBefore(t, entries), entries[i]).error
    decreases |entries|
  {
    i := 0;
    if Parsed(t, entries[0]).Success? {
      i := AParseFailsAtTheFirst(Parsed(t, entries[0]).value, entries[1..]);
      assert entries[..i + 1][1..] == entries[1..][..i];
      i := i + 1;
    }
  }

  /** The whole table is what its verbs declared: each route some verb's own, and every verb's routes in it. */
  lemma {:induction false} ATableIsItsVerbs(verbs: seq<Verb>)
    requires AssembleAll(verbs).Success?
    ensures forall name: Service, route: Route ::
              Has(AssembleAll(verbs).value, name, route)
              <==> exists i :: 0 <= i < |verbs| && Binds(verbs[i], name, route)
  {
    if verbs != [] {
      var n := |verbs| - 1;
      ATableIsItsVerbs(verbs[..n]);
      AVerbBindsItsOwn(AssembleAll(verbs[..n]).value, verbs[n]);
      var t, u := AssembleAll(verbs[..n]).value, AssembleAll(verbs).value;
      forall name: Service, route: Route
        ensures Has(u, name, route) <==> exists i :: 0 <= i < |verbs| && Binds(verbs[i], name, route)
      {
        assert Has(t, name, route) <==> exists i :: 0 <= i < n && Binds(verbs[..n][i], name, route);
        if i :| 0 <= i < n && Binds(verbs[..n][i], name, route) {
          assert verbs[..n][i] == verbs[i];
        }
        if i :| 0 <= i < |verbs| && Binds(verbs[i], name, route) {
          assert i < n ==> verbs[..n][i] == verbs[i];
        }
      }
    }
  }

  // ----- what every assembled table keeps --------------------------------------------------------------

  /** Proven-only handlers stand on proven-only routes and nowhere else, and no raw stream carries a floor. */
  ghost predicate WellBound(t: Table) {
    forall name :: name in t ==>
      && (t[name].access.ProvenRoute? <==> t[name].target == Handler(ProvenOnly))
      && (t[name].target.RawStream? ==> t[name].access.Family?)
  }

  /** The grammar resolves to sources and to built-ins, which are open-permitting handlers. */
  ghost predicate FromGrammar(verb: Verb) {
    verb.Parse? ==>
      forall target :: (exists name :: Entry(name, Some(target)) in verb.entries)
        ==> target.RawStream? || target == Handler(OptIn)
  }

  /** `more` has every route of `t`, as it was. */
  ghost predicate Extends(t: Table, more: Table) {
    forall name :: name in t ==> name in more && more[name] == t[name]
  }

  lemma {:induction false} ParsingKeepsRoutes(t: Table, entries: seq<Entry>)
    requires WellBound(t) && FromGrammar(Parse(entries)) && ParsedAll(t, entries).Success?
    ensures WellBound(ParsedAll(t, entries).value) && Extends(t, ParsedAll(t, entries).value)
    decreases |entries|
  {
    if entries != [] {
      assert forall entry :: entry in entries[1..] ==> entry in entries;
      assert Entry(entries[0].name, Some(entries[0].target.value)) in entries;
      ParsingKeepsRoutes(Parsed(t, entries[0]).value, entries[1..]);
    }
  }

  lemma VerbKeepsRoutes(t: Table, verb: Verb)
    requires WellBound(t) && FromGrammar(verb) && Assembled(t, verb).Success?
    ensures WellBound(Assembled(t, verb).value) && Extends(t, Assembled(t, verb).value)
  {
    if verb.Parse? {
      ParsingKeepsRoutes(t, verb.entries);
    }
  }

  /** However a table is put together it is well bound, and no verb ever moves a route that is there. */
  lemma {:induction false} AssembledTablesAreWellBound(verbs: seq<Verb>, k: nat)
    requires k <= |verbs| && (forall i :: 0 <= i < |verbs| ==> FromGrammar(verbs[i])) && AssembleAll(verbs).Success?
    ensures WellBound(AssembleAll(verbs).value)
    ensures AssembleAll(verbs[..k]).Success? && Extends(AssembleAll(verbs[..k]).value, AssembleAll(verbs).value)
  {
    if k == |verbs| {
      assert verbs[..k] == verbs;
    }
    if verbs != [] {
      var before := verbs[..|verbs| - 1];
      assert forall i :: 0 <= i < |before| ==> before[i] == verbs[i];
      if k < |verbs| {
        assert before[..k] == verbs[..k];
        AssembledTablesAreWellBound(before, k);
      } else {
        AssembledTablesAreWellBound(before, |before|);
      }
      VerbKeepsRoutes(AssembleAll(before).value, verbs[|verbs| - 1]);
    }
  }
}
