/** Rows in the order of their names, which both views of a node are rendered in. */
module Listings {
  import opened ServiceNames
  import Catalog

  type Row = (Service, Catalog.Posture)

  /** The order of strings: octet by octet, which for a service name is character by character. */
  predicate Less(a: string, b: string) {
    b != [] && (a == [] || a[0] < b[0] || (a[0] == b[0] && Less(a[1..], b[1..])))
  }

  lemma {:induction false} LessIsAnOrder(a: string, b: string, c: string)
    ensures !Less(a, a)
    ensures Less(a, b) && Less(b, c) ==> Less(a, c)
    ensures a != b ==> Less(a, b) || Less(b, a)
    decreases |a| + |b| + |c|
  {
    if a != [] {
      LessIsAnOrder(a[1..], if b == [] then [] else b[1..], if c == [] then [] else c[1..]);
      if b != [] && a[0] == b[0] {
        assert a == [a[0]] + a[1..] && b == [b[0]] + b[1..];
      }
    }
  }

  /** A string comes before another exactly if it is a beginning of it, or has the smaller character where they part. */
  lemma {:induction false} LessExactly(a: string, b: string)
    ensures Less(a, b) <==> exists k: nat :: PartAt(a, b, k)
  {
    if a != [] && b != [] && a[0] == b[0] {
      LessExactly(a[1..], b[1..]);
      if k: nat :| PartAt(a[1..], b[1..], k) {
        assert a[..k + 1] == [a[0]] + a[1..][..k] && b[..k + 1] == [b[0]] + b[1..][..k];
        assert PartAt(a, b, k + 1);
      }
      if k: nat :| PartAt(a, b, k) {
        assert k > 0;
        assert a[1..][..k - 1] == a[..k][1..] && b[1..][..k - 1] == b[..k][1..];
        assert PartAt(a[1..], b[1..], k - 1);
      }
    } else {
      if Less(a, b) {
        assert PartAt(a, b, 0);
      }
      if k: nat :| PartAt(a, b, k) {
        assert k > 0 ==> a[..k][0] == b[..k][0];
      }
    }
  }

  predicate PartAt(a: string, b: string, k: nat) {
    k <= |a| && k < |b| && a[..k] == b[..k] && (k == |a| || a[k] < b[k])
  }

  /** No name after a row comes before it. */
  ghost predicate Ascending(rows: seq<Row>) {
    forall i, j :: 0 <= i < j < |rows| ==> !Less(rows[j].0, rows[i].0)
  }

  /** `rows` are those of `view`, each once, every name after the one before it. */
  ghost predicate Lists(rows: seq<Row>, view: set<Row>) {
    && (forall row :: row in rows <==> row in view)
    && (forall i, j :: 0 <= i < j < |rows| ==> Less(rows[i].0, rows[j].0))
  }

  lemma FirstsAgree(a: seq<Row>, b: seq<Row>, view: set<Row>)
    requires Lists(a, view) && Lists(b, view) && a != [] && b != []
    ensures a[0] == b[0]
  {
    assert b[0] in a && a[0] in b;
    var i: nat :| i < |a| && a[i] == b[0];
    var j: nat :| j < |b| && b[j] == a[0];
    LessIsAnOrder(a[0].0, b[0].0, a[0].0);
  }

  lemma TailLists(a: seq<Row>, view: set<Row>)
    requires Lists(a, view) && a != []
    ensures Lists(a[1..], view - {a[0]})
  {
    assert a == [a[0]] + a[1..];
    if a[0] in a[1..] {
      var i: nat :| i < |a[1..]| && a[1..][i] == a[0];
      assert Less(a[0].0, a[i + 1].0);
      LessIsAnOrder(a[0].0, a[0].0, a[0].0);
    }
  }

  lemma AFirstRowIsListed(rows: seq<Row>, view: set<Row>)
    requires Lists(rows, view)
    ensures rows != [] ==> rows[0] in view
  {
  }

  /** A view has one listing. */
  lemma {:induction false} ListingsAgree(a: seq<Row>, b: seq<Row>, view: set<Row>)
    requires Lists(a, view) && Lists(b, view)
    ensures a == b
    decreases |a|
  {
    if a == [] {
      AFirstRowIsListed(b, view);
    } else {
      assert a[0] in b;
      FirstsAgree(a, b, view);
      TailLists(a, view);
      TailLists(b, view);
      ListingsAgree(a[1..], b[1..], view - {a[0]});
      assert a == [a[0]] + a[1..] && b == [b[0]] + b[1..];
    }
  }

  /** Where a stable sort puts one more row: after every row its name does not come before. */
  method Placed(rows: seq<Row>, row: Row) returns (at: nat)
    requires Ascending(rows)
    ensures at <= |rows|
    ensures forall i :: 0 <= i < at ==> !Less(row.0, rows[i].0)
    ensures forall i :: at <= i < |rows| ==> Less(row.0, rows[i].0)
  {
    at := |rows|;
    while at > 0 && Less(row.0, rows[at - 1].0)
      invariant at <= |rows|
      invariant forall i :: at <= i < |rows| ==> Less(row.0, rows[i].0)
    {
      at := at - 1;
    }
    forall i | 0 <= i < at ensures !Less(row.0, rows[i].0) {
      LessIsAnOrder(row.0, rows[i].0, rows[at - 1].0);
      LessIsAnOrder(rows[i].0, rows[at - 1].0, row.0);
    }
  }

  ghost predicate OneRowAName(view: set<Row>) {
    forall x, y :: x in view && y in view && x.0 == y.0 ==> x == y
  }

  /** The rows of a view that has one for each name, sorted. */
  method Sorted(view: set<Row>) returns (rows: seq<Row>)
    requires OneRowAName(view)
    ensures Lists(rows, view)
  {
    rows := [];
    var rest := view;
    while rest != {}
      invariant rest <= view && Lists(rows, view - rest)
      decreases |rest|
    {
      var row :| row in rest;
      ListsAscend(rows, view - rest);
      var at := Placed(rows, row);
      InsertLists(rows, view - rest, row, at);
      assert view - rest + {row} == view - (rest - {row});
      rows := rows[..at] + [row] + rows[at..];
      rest := rest - {row};
    }
    assert view - rest == view;
  }

  lemma ListsAscend(rows: seq<Row>, view: set<Row>)
    requires Lists(rows, view)
    ensures Ascending(rows)
  {
    forall i, j | 0 <= i < j < |rows| ensures !Less(rows[j].0, rows[i].0) {
      LessIsAnOrder(rows[i].0, rows[j].0, rows[i].0);
      LessIsAnOrder(rows[i].0, rows[i].0, rows[i].0);
    }
  }

  lemma InsertLists(rows: seq<Row>, view: set<Row>, row: Row, at: nat)
    requires Lists(rows, view) && at <= |rows| && OneRowAName(view + {row}) && row !in view
    requires forall i :: 0 <= i < at ==> !Less(row.0, rows[i].0)
    requires forall i :: at <= i < |rows| ==> Less(row.0, rows[i].0)
    ensures Lists(rows[..at] + [row] + rows[at..], view + {row})
  {
    var more := rows[..at] + [row] + rows[at..];
    assert rows == rows[..at] + rows[at..];
    forall i | 0 <= i < at ensures Less(rows[i].0, row.0) {
      assert rows[i] in view;
      LessIsAnOrder(row.0, rows[i].0, row.0);
    }
    forall i, j | 0 <= i < j < |more| ensures Less(more[i].0, more[j].0) {
      assert i < at ==> more[i] == rows[i];
      assert i > at ==> more[i] == rows[i - 1];
      assert j < at ==> more[j] == rows[j];
      assert j > at ==> more[j] == rows[j - 1];
    }
  }
}

/**
  The door (src/tunnel/exposer.rs:154-259, src/tunnel/router.rs:579-681): every interlock a route table must pass
  before it is served, and the two views a caller renders it from.
*/
module Exposing {
  import opened Wrappers
  import opened ServiceNames
  import opened Gates
  import opened Routing
  import opened Listings
  import Catalog

  datatype ProveError =
    | ProvenUnderOpen(name: Service)
    | KeylessUnderOpen(name: Service)
    | UnsafeNotServed(name: Service)
    | UnsafeNotRaw(name: Service)
    | UnsafeSource(name: Service)
    | RawUnderOpen(name: Service)
    | MemberUnderOpen(name: Service)
    | MemberUnsafe(name: Service)
    | PublicNotServed(name: Service)
    | PublicProven(name: Service)
    | PublicMember(name: Service)
    | PublicRaw(name: Service)
    | PublicKeyless(name: Service)

  /** The stage of the proof an error belongs to. */
  function Stage(e: ProveError): nat {
    match e
    case ProvenUnderOpen(_) => 0
    case KeylessUnderOpen(_) => 1
    case UnsafeNotServed(_) => 2
    case UnsafeNotRaw(_) => 2
    case UnsafeSource(_) => 2
    case RawUnderOpen(_) => 3
    case MemberUnderOpen(_) => 4
    case MemberUnsafe(_) => 5
    case _ => 6
  }

  /** What each error says is so. */
  predicate Offends(e: ProveError, t: Table, open: bool, public: set<Service>, publicUnsafe: set<Service>) {
    var name := e.name;
    match e
    case ProvenUnderOpen(_) => open && name in t && t[name].access.ProvenRoute?
    case KeylessUnderOpen(_) => open && name in t && t[name].target.Handler? && !t[name].target.OpenSafe()
    case UnsafeNotServed(_) => name in publicUnsafe && name !in t
    case UnsafeNotRaw(_) => name in publicUnsafe && name in t && t[name].target.Handler?
    case UnsafeSource(_) => name in publicUnsafe && name in t && t[name].target.RawStream? && !t[name].target.sound
    case RawUnderOpen(_) => open && name in t && t[name].target.RawStream? && name !in publicUnsafe
    case MemberUnderOpen(_) => open && name in t && t[name].access.Member?
    case MemberUnsafe(_) => name in publicUnsafe && name in t && t[name].access.Member?
    case PublicNotServed(_) => name in public && name !in t
    case PublicProven(_) => name in public && name in t && t[name].access.ProvenRoute?
    case PublicMember(_) => name in public && name in t && t[name].access.Member?
    case PublicRaw(_) => name in public && name in t && t[name].access.Family? && t[name].target.RawStream?
    case PublicKeyless(_) =>
      name in public && name in t && t[name].access.Family? && t[name].target.Handler? && !t[name].target.OpenSafe()
  }

  /** Nothing is wrong at any stage before `stage`. */
  ghost predicate ClearUpTo(stage: nat, t: Table, open: bool, public: set<Service>, publicUnsafe: set<Service>) {
    forall e: ProveError :: Stage(e) < stage ==> !Offends(e, t, open, public, publicUnsafe)
  }

  /** Every name asked for unsafely is a served raw source its guard passes. */
  ghost predicate UnsafeHolds(t: Table, names: set<Service>) {
    forall name :: name in names ==> name in t && t[name].target == RawStream(true)
  }

  /** Every name asked for publicly is a served handler that may face anyone, with no floor. */
  ghost predicate PublicHolds(t: Table, names: set<Service>) {
    forall name :: name in names ==> name in t && t[name].access.Family? && t[name].target.OpenSafe()
  }

  /** What the door lets through. */
  ghost predicate Sound(t: Table, open: bool, public: set<Service>, publicUnsafe: set<Service>) {
    && UnsafeHolds(t, publicUnsafe)
    && PublicHolds(t, public)
    && (forall name :: name in publicUnsafe ==> !t[name].access.Member?)
    && (open ==> forall name :: name in t ==>
                   t[name].access.Family? && (t[name].target.OpenSafe() || name in publicUnsafe))
  }

  /** An exposer, as built: the overlays are proven. */
  datatype Exposer = Exposer(services: Table, gate: Gate, public: set<Service>, publicUnsafe: set<Service>)

  /** The door lets through exactly what no refusal of its is true of. */
  lemma SoundExactly(t: Table, open: bool, public: set<Service>, publicUnsafe: set<Service>)
    requires WellBound(t)
    ensures Sound(t, open, public, publicUnsafe) <==> forall e: ProveError :: !Offends(e, t, open, public, publicUnsafe)
  {
    if forall e: ProveError :: !Offends(e, t, open, public, publicUnsafe) {
      forall name | name in publicUnsafe ensures name in t && t[name].target == RawStream(true) {
        assert !Offends(UnsafeNotServed(name), t, open, public, publicUnsafe);
        assert !Offends(UnsafeNotRaw(name), t, open, public, publicUnsafe);
        assert !Offends(UnsafeSource(name), t, open, public, publicUnsafe);
      }
      forall name | name in public ensures name in t && t[name].access.Family? && t[name].target.OpenSafe() {
        assert !Offends(PublicNotServed(name), t, open, public, publicUnsafe);
        assert !Offends(PublicProven(name), t, open, public, publicUnsafe);
        assert !Offends(PublicMember(name), t, open, public, publicUnsafe);
        assert !Offends(PublicRaw(name), t, open, public, publicUnsafe);
        assert !Offends(PublicKeyless(name), t, open, public, publicUnsafe);
      }
      forall name | name in t && open
        ensures t[name].access.Family? && (t[name].target.OpenSafe() || name in publicUnsafe)
      {
        assert !Offends(ProvenUnderOpen(name), t, open, public, publicUnsafe);
        assert !Offends(KeylessUnderOpen(name), t, open, public, publicUnsafe);
        assert !Offends(RawUnderOpen(name), t, open, public, publicUnsafe);
        assert !Offends(MemberUnderOpen(name), t, open, public, publicUnsafe);
      }
    }
  }

  method ProveUnsafe(t: Table, names: set<Service>) returns (r: Result<set<Service>, ProveError>)
    ensures r.Success? <==> UnsafeHolds(t, names)
    ensures r.Success? ==> r.value == names
    ensures r.Failure? ==> Stage(r.error) == 2 && Offends(r.error, t, false, {}, names)
  {
    var rest, proven: set<Service> := names, {};
    while rest != {}
      invariant rest <= names && proven + rest == names
      invariant UnsafeHolds(t, proven)
      decreases |rest|
    {
      var name :| name in rest;
      rest := rest - {name};
      if name !in t {
        return Failure(UnsafeNotServed(name));
      }
      if t[name].target.Handler? {
        return Failure(UnsafeNotRaw(name));
      }
      if !t[name].target.sound {
        return Failure(UnsafeSource(name));
      }
      proven := proven + {name};
    }
    r := Success(proven);
  }

  method ProvePublic(t: Table, names: set<Service>) returns (r: Result<set<Service>, ProveError>)
    ensures r.Success? <==> PublicHolds(t, names)
    ensures r.Success? ==> r.value == names
    ensures r.Failure? ==> Stage(r.error) == 6 && Offends(r.error, t, false, names, {})
  {
    var rest, proven: set<Service> := names, {};
    while rest != {}
      invariant rest <= names && proven + rest == names
      invariant PublicHolds(t, proven)
      decreases |rest|
    {
      var name :| name in rest;
      rest := rest - {name};
      if name !in t {
        return Failure(PublicNotServed(name));
      }
      if t[name].access.ProvenRoute? {
        return Failure(PublicProven(name));
      }
      if t[name].access.Member? {
        return Failure(PublicMember(name));
      }
      if t[name].target.RawStream? {
        return Failure(PublicRaw(name));
      }
      if !t[name].target.OpenSafe() {
        return Failure(PublicKeyless(name));
      }
      proven := proven + {name};
    }
    r := Success(proven);
  }

  /** Under an open base nothing proven-only and no keyless handler may stand; a proven-only route is named first. */
  method OpenBase(t: Table) returns (r: Option<ProveError>)
    ensures r.None? <==> forall name :: name in t ==>
              !t[name].access.ProvenRoute? && (t[name].target.Handler? ==> t[name].target.OpenSafe())
    ensures r.Some? ==> Stage(r.value) < 2 && Offends(r.value, t, true, {}, {})
    ensures r.Some? && Stage(r.value) == 1 ==> forall name :: name in t ==> !t[name].access.ProvenRoute?
  {
    if name :| name in t && t[name].access.ProvenRoute? {
      return Some(ProvenUnderOpen(name));
    }
    if name :| name in t && t[name].target.Handler? && !t[name].target.OpenSafe() {
      return Some(KeylessUnderOpen(name));
    }
    r := None;
  }

  /** Raw sources and floors under an open base, and floors in the unsafe set. */
  method Floors(t: Table, open: bool, publicUnsafe: set<Service>) returns (r: Option<ProveError>)
    ensures r.None? ==> open ==> forall name :: name in t ==>
              !t[name].access.Member? && (t[name].target.RawStream? ==> name in publicUnsafe)
    ensures r.None? ==> forall name :: name in t && name in publicUnsafe ==> !t[name].access.Member?
    ensures r.Some? ==> 3 <= Stage(r.value) <= 5 && Offends(r.value, t, open, {}, publicUnsafe)
    ensures r.Some? && Stage(r.value) > 3 && open ==>
              forall name :: name in t && t[name].target.RawStream? ==> name in publicUnsafe
    ensures r.Some? && Stage(r.value) > 4 && open ==> forall name :: name in t ==> !t[name].access.Member?
  {
    if open {
      if name :| name in t && t[name].target.RawStream? && name !in publicUnsafe {
        return Some(RawUnderOpen(name));
      }
      if name :| name in t && t[name].access.Member? {
        return Some(MemberUnderOpen(name));
      }
    }
    if name :| name in t && t[name].access.Member? && name in publicUnsafe {
      return Some(MemberUnsafe(name));
    }
    r := None;
  }

  /** The one door. What it refuses it refuses for the first thing wrong, and names a route of which it is true. */
  method Prove(t: Table, gate: Gate, public: set<Service>, publicUnsafe: set<Service>)
    returns (r: Result<Exposer, ProveError>)
    ensures r.Success? <==> Sound(t, gate.OpenGate?, public, publicUnsafe)
    ensures r.Success? ==> r.value == Exposer(t, gate, public, publicUnsafe)
    ensures r.Failure? ==> Offends(r.error, t, gate.OpenGate?, public, publicUnsafe)
    ensures r.Failure? ==> ClearUpTo(Stage(r.error), t, gate.OpenGate?, public, publicUnsafe)
  {
    if gate.OpenGate? {
      var base := OpenBase(t);
      if base.Some? {
        return Failure(base.value);
      }
    }
    var provenUnsafe := ProveUnsafe(t, publicUnsafe);
    if provenUnsafe.Failure? {
      return Failure(provenUnsafe.error);
    }
    var floors := Floors(t, gate.OpenGate?, provenUnsafe.value);
    if floors.Some? {
      return Failure(floors.value);
    }
    var provenPublic := ProvePublic(t, public);
    if provenPublic.Failure? {
      return Failure(provenPublic.error);
    }
    r := Success(Exposer(t, gate, provenPublic.value, provenUnsafe.value));
  }

  /** A node from its declarations: every verb in order, the two public requests, and the door. */
  method Expose(gate: Gate, verbs: seq<Verb>, public: set<Service>, publicUnsafe: set<Service>)
    returns (r: Option<Exposer>)
    ensures r.Some?
       <==> AssembleAll(verbs).Success? && Sound(AssembleAll(verbs).value, gate.OpenGate?, public, publicUnsafe)
    ensures r.Some? ==> r.value == Exposer(AssembleAll(verbs).value, gate, public, publicUnsafe)
    ensures r.Some? ==> forall name: Service, route: Route ::
              Has(r.value.services, name, route) <==> exists i :: 0 <= i < |verbs| && Binds(verbs[i], name, route)
    ensures r.Some? && (forall i :: 0 <= i < |verbs| ==> FromGrammar(verbs[i])) ==> WellBound(r.value.services)
  {
    var router := new Router(gate);
    var i := 0;
    while i < |verbs|
      invariant 0 <= i <= |verbs|
      invariant AssembleAll(verbs[..i]) == Success(router.services)
    {
      var bound := router.Assemble(verbs[i]);
      assert verbs[..i + 1][..i] == verbs[..i];
      if bound.Failure? {
        AFailureStands(verbs, i + 1);
        return None;
      }
      i := i + 1;
    }
    assert verbs[..i] == verbs;
    router.RequestPublic(public);
    router.RequestPublicUnsafe(publicUnsafe);
    var proven := Prove(router.services, router.gate, router.public, router.publicUnsafe);
    if proven.Failure? {
      return None;
    }
    ATableIsItsVerbs(verbs);
    if forall i :: 0 <= i < |verbs| ==> FromGrammar(verbs[i]) {
      AssembledTablesAreWellBound(verbs, |verbs|);
    }
    r := Some(proven.value);
  }

  lemma {:induction false} AFailureStands(verbs: seq<Verb>, k: nat)
    requires k <= |verbs| && AssembleAll(verbs[..k]).Failure?
    ensures AssembleAll(verbs).Failure?
  {
    if k == |verbs| {
      assert verbs[..k] == verbs;
    } else {
      assert verbs[..|verbs| - 1][..k] == verbs[..k];
      AFailureStands(verbs[..|verbs| - 1], k);
    }
  }

  // ----- the views -------------------------------------------------------------------------------------

  function Posture(open: bool, public: set<Service>, publicUnsafe: set<Service>, name: Service): Catalog.Posture {
    if open || name in public || name in publicUnsafe then Catalog.Open else Catalog.Gated
  }

  type View = set<Row>

  /** The rows of a route table. */
  function TableView(t: Table, open: bool, public: set<Service>, publicUnsafe: set<Service>): (view: View)
    ensures OneRowAName(view)
  {
    set name | name in t :: (name, Posture(open, public, publicUnsafe, name))
  }

  /** What the wire catalog lists, read off what was asked for; its own row, not bound yet, reads gated. */
  function CatalogOf(t: Table, gate: Gate, public: set<Service>, publicUnsafe: set<Service>,
                     self: Option<Service>): View
  {
    TableView(t, gate.OpenGate?, public, publicUnsafe) + (if self.Some? then {(self.value, Catalog.Gated)} else {})
  }

  /** What the banner lists, read off what was proven. */
  function ManifestOf(e: Exposer): View { TableView(e.services, e.gate.OpenGate?, e.public, e.publicUnsafe) }

  /** The catalog's rows by name; a self row the table already has goes in after its own. */
  method CatalogRows(t: Table, gate: Gate, public: set<Service>, publicUnsafe: set<Service>, self: Option<Service>)
    returns (rows: seq<Row>)
    ensures Ascending(rows)
    ensures self.None? || self.value !in t ==> Lists(rows, CatalogOf(t, gate, public, publicUnsafe, self))
    ensures self.Some? ==>
              exists at: nat :: at < |rows| && rows[at] == (self.value, Catalog.Gated)
                                && Lists(rows[..at] + rows[at + 1..], CatalogOf(t, gate, public, publicUnsafe, None))
  {
    var view := CatalogOf(t, gate, public, publicUnsafe, None);
    assert view == TableView(t, gate.OpenGate?, public, publicUnsafe);
    var served := Sorted(view);
    ListsAscend(served, view);
    if self.None? {
      return served;
    }
    var row := (self.value, Catalog.Gated);
    var at := Placed(served, row);
    rows := served[..at] + [row] + served[at..];
    PlacedAscends(served, row, at);
    assert rows[..at] + rows[at + 1..] == served by { assert served == served[..at] + served[at..]; }
    if self.value !in t {
      InsertLists(served, view, row, at);
    }
  }

  lemma PlacedAscends(rows: seq<Row>, row: Row, at: nat)
    requires Ascending(rows) && at <= |rows|
    requires forall i :: 0 <= i < at ==> !Less(row.0, rows[i].0)
    requires forall i :: at <= i < |rows| ==> Less(row.0, rows[i].0)
    ensures Ascending(rows[..at] + [row] + rows[at..])
  {
    var more := rows[..at] + [row] + rows[at..];
    forall i, j | 0 <= i < j < |more| ensures !Less(more[j].0, more[i].0) {
      assert i < at ==> more[i] == rows[i];
      assert i > at ==> more[i] == rows[i - 1];
      assert j < at ==> more[j] == rows[j];
      assert j > at ==> more[j] == rows[j - 1];
      LessIsAnOrder(more[i].0, more[j].0, more[i].0);
      LessIsAnOrder(more[i].0, more[i].0, more[i].0);
    }
  }

  /** The banner's rows by name. */
  method ManifestRows(e: Exposer) returns (rows: seq<Row>)
    ensures Lists(rows, ManifestOf(e))
  {
    rows := Sorted(ManifestOf(e));
  }

  /**
    A catalog drawn before its own member-only row is bound is, row for row and in order, the banner of the
    finished node.
  */
  lemma TheCatalogForeseesTheManifest(t: Table, gate: Gate, public: set<Service>, publicUnsafe: set<Service>,
                                      self: Service, marker: Marker)
    requires BoundGated(t, self, marker, Member).Success?
    requires Sound(BoundGated(t, self, marker, Member).value, gate.OpenGate?, public, publicUnsafe)
    ensures var catalog := CatalogOf(t, gate, public, publicUnsafe, Some(self));
            var manifest := ManifestOf(Exposer(BoundGated(t, self, marker, Member).value, gate, public, publicUnsafe));
            && catalog == manifest
            && forall a, b :: Lists(a, catalog) && Lists(b, manifest) ==> a == b
  {
    var full := BoundGated(t, self, marker, Member).value;
    assert full[self].access.Member?;
    assert Posture(gate.OpenGate?, public, publicUnsafe, self) == Catalog.Gated;
    var catalog := CatalogOf(t, gate, public, publicUnsafe, Some(self));
    var manifest := ManifestOf(Exposer(full, gate, public, publicUnsafe));
    forall name: Service, p: Catalog.Posture ensures (name, p) in catalog <==> (name, p) in manifest {
      assert name in full <==> name in t || name == self;
    }
    forall a, b | Lists(a, catalog) && Lists(b, manifest) ensures a == b {
      ListingsAgree(a, b, catalog);
    }
  }
}
