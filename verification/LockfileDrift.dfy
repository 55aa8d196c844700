/** The comparison of scripts/lint/lockfile-sync.ts: manifests against the lockfile, as an exact diff. */
module LockfileDrift {
  import opened Wrappers
  import opened LockfileParser
  import opened Text

  datatype Kind = MissingFromLockfile | MissingFromManifest | SpecifierChanged

  datatype Severity = Blocking | Advisory

  datatype Drift = Drift(
    importer: string, group: DepGroup, name: string, kind: Kind, severity: Severity,
    manifestSpec: Option<string>, lockfileSpec: Option<string>)

  const OVERRIDES := "(overrides)"
  const IMPORTER := "(importer)"

  /** Names that `in` finds on every plain object. */
  const INHERITED: set<string> := {
    "constructor", "toString", "toLocaleString", "valueOf", "hasOwnProperty", "isPrototypeOf",
    "propertyIsEnumerable", "__proto__", "__defineGetter__", "__defineSetter__", "__lookupGetter__",
    "__lookupSetter__"}

  /** What findDrift reads: the two override tables, the importers the workspace globs name, the
      manifests that exist, and the lockfile's importers. */
  datatype Repo = Repo(
    declared: Specs, overrides: Specs,
    onDisk: set<string>, manifests: map<string, ImporterSpecs>, locked: Importers)
  {
    function Importers(): set<string> { onDisk + locked.Keys }
  }

  /** What the lockfile is expected to record: an override replaces whatever the manifest asks for. */
  function Expected(overrides: Specs, name: string, spec: string): string {
    if name in overrides then overrides[name] else spec
  }

  /** The places where a drift can be: an override, an importer as a whole, or one dependency. */
  datatype Place =
    | OverrideAt(name: string)
    | ImporterAt(importer: string)
    | DepAt(importer: string, group: DepGroup, name: string)

  function OverrideDrift(r: Repo, name: string): Option<Drift> {
    var declared := if name in r.declared then Some(r.declared[name]) else None;
    var locked := if name in r.overrides then Some(r.overrides[name]) else None;
    if declared.Some? && locked.None? then
      Some(Drift(OVERRIDES, Dependencies, name, MissingFromLockfile, Blocking, declared, None))
    else if declared.Some? && locked != declared then
      Some(Drift(OVERRIDES, Dependencies, name, SpecifierChanged, Blocking, declared, locked))
    else if declared.None? && name !in INHERITED && locked.Some? then
      Some(Drift(OVERRIDES, Dependencies, name, MissingFromManifest, Blocking, None, locked))
    else None
  }

  function ImporterDrift(r: Repo, importer: string): Option<Drift> {
    var recorded := if importer in r.locked then Some("present") else None;
    if importer !in r.Importers() then None
    else if importer !in r.manifests then
      Some(Drift(importer, Dependencies, IMPORTER, MissingFromManifest, Advisory, None, recorded))
    else if importer !in r.locked then
      Some(Drift(importer, Dependencies, IMPORTER, MissingFromLockfile, Blocking, Some("present"), None))
    else None
  }

  function DepDrift(overrides: Specs, importer: string, g: DepGroup, mine: Specs, theirs: Specs, name: string): Option<Drift> {
    if name in mine then
      if name !in theirs then
        Some(Drift(importer, g, name, MissingFromLockfile, Blocking, Some(mine[name]), None))
      else if theirs[name] != Expected(overrides, name, mine[name]) then
        Some(Drift(importer, g, name, SpecifierChanged, Blocking, Some(Expected(overrides, name, mine[name])), Some(theirs[name])))
      else None
    else if name in theirs then
      Some(Drift(importer, g, name, MissingFromManifest, Blocking, None, Some(theirs[name])))
    else None
  }

  function DriftAt(r: Repo, p: Place): Option<Drift> {
    match p
    case OverrideAt(name) => OverrideDrift(r, name)
    case ImporterAt(importer) => ImporterDrift(r, importer)
    case DepAt(importer, g, name) =>
      if importer in r.manifests && importer in r.locked then
        DepDrift(r.overrides, importer, g, r.manifests[importer].In(g), r.locked[importer].In(g), name)
      else None
  }

  /** The drifts are those at some places of the repository, each place once. */
  ghost predicate Located(r: Repo, places: seq<Place>, drift: seq<Drift>) {
    && |places| == |drift|
    && (forall i | 0 <= i < |places| :: DriftAt(r, places[i]) == Some(drift[i]))
    && (forall i, j | 0 <= i < j < |places| :: places[i] != places[j])
  }

  /** The drift list is an exact diff: every place that differs is in it, and nothing else. */
  ghost predicate Exact(r: Repo, places: seq<Place>, drift: seq<Drift>) {
    Located(r, places, drift) && forall p | DriftAt(r, p).Some? :: p in places
  }

  function GroupIndex(g: DepGroup): nat {
    match g
    case Dependencies => 0
    case DevDependencies => 1
    case OptionalDependencies => 2
  }

  /** The manifest asks for nothing of the sort. */
  predicate OnlyLocked(r: Repo, p: Place) {
    match p
    case OverrideAt(name) => name !in r.declared
    case ImporterAt(_) => false
    case DepAt(importer, g, name) => importer in r.manifests && name !in r.manifests[importer].In(g)
  }

  /** The order of the report: overrides first, then importer by importer in the order of sort, group by
      group, and each time what is declared before what is only locked. */
  predicate MayPrecede(r: Repo, p: Place, q: Place) {
    if p.OverrideAt? || q.OverrideAt? then
      p.OverrideAt? && (!q.OverrideAt? || (OnlyLocked(r, p) ==> OnlyLocked(r, q)))
    else if p.importer != q.importer then Below(p.importer, q.importer)
    else if p.DepAt? && q.DepAt? then
      || GroupIndex(p.group) < GroupIndex(q.group)
      || (p.group == q.group && (OnlyLocked(r, p) ==> OnlyLocked(r, q)))
    else true
  }

  ghost predicate Ordered(r: Repo, places: seq<Place>) {
    forall i, j | 0 <= i < j < |places| :: MayPrecede(r, places[i], places[j])
  }

  lemma OrderedAppend(r: Repo, places: seq<Place>, p: Place)
    requires Ordered(r, places) && forall q <- places :: MayPrecede(r, q, p)
    ensures Ordered(r, places + [p])
  {
    hide MayPrecede;
    var grown := places + [p];
    forall i, j | 0 <= i < j < |grown|
      ensures MayPrecede(r, grown[i], grown[j])
    {
      if j == |places| { assert places[i] in places; }
    }
  }

  predicate Clean(drift: seq<Drift>) {
    forall d <- drift :: d.severity == Advisory
  }

  // ---------------------------------------------------------------- findDrift

  lemma LocatedAppend(r: Repo, places: seq<Place>, drift: seq<Drift>, p: Place)
    requires Located(r, places, drift) && DriftAt(r, p).Some? && p !in places
    ensures Located(r, places + [p], drift + [DriftAt(r, p).value])
  {
  }

  method OverrideDrifts(r: Repo) returns (drift: seq<Drift>, ghost places: seq<Place>)
    ensures Located(r, places, drift) && Ordered(r, places)
    ensures forall p <- places :: p.OverrideAt?
    ensures forall name | DriftAt(r, OverrideAt(name)).Some? :: OverrideAt(name) in places
  {
    hide Located, Ordered;
    drift, places := [], [];
    NothingLocated(r);
    var names := r.declared.Keys;
    while names != {}
      invariant names <= r.declared.Keys
      invariant Located(r, places, drift) && Ordered(r, places)
      invariant forall p <- places :: p.OverrideAt? && p.name in r.declared && p.name !in names
      invariant forall name | name in r.declared && name !in names && DriftAt(r, OverrideAt(name)).Some? ::
                  OverrideAt(name) in places
    {
      var name :| name in names;
      names := names - {name};
      var spec := r.declared[name];
      if name !in r.overrides {
        LocatedAppend(r, places, drift, OverrideAt(name));
        OrderedAppend(r, places, OverrideAt(name));
        drift := drift + [Drift(OVERRIDES, Dependencies, name, MissingFromLockfile, Blocking, Some(spec), None)];
        places := places + [OverrideAt(name)];
      } else if r.overrides[name] != spec {
        LocatedAppend(r, places, drift, OverrideAt(name));
        OrderedAppend(r, places, OverrideAt(name));
        drift := drift + [Drift(OVERRIDES, Dependencies, name, SpecifierChanged, Blocking, Some(spec), Some(r.overrides[name]))];
        places := places + [OverrideAt(name)];
      }
    }
    names := r.overrides.Keys;
    while names != {}
      invariant names <= r.overrides.Keys
      invariant Located(r, places, drift) && Ordered(r, places)
      invariant forall p <- places :: p.OverrideAt? && (p.name in r.declared || p.name !in names)
      invariant forall name | name in r.declared && DriftAt(r, OverrideAt(name)).Some? :: OverrideAt(name) in places
      invariant forall name | name in r.overrides && name !in names && DriftAt(r, OverrideAt(name)).Some? ::
                  OverrideAt(name) in places
    {
      var name :| name in names;
      names := names - {name};
      if !(name in r.declared || name in INHERITED) {
        LocatedAppend(r, places, drift, OverrideAt(name));
        OrderedAppend(r, places, OverrideAt(name));
        drift := drift + [Drift(OVERRIDES, Dependencies, name, MissingFromManifest, Blocking, None, Some(r.overrides[name]))];
        places := places + [OverrideAt(name)];
      }
    }
  }

  lemma NothingLocated(r: Repo)
    ensures Located(r, [], []) && Ordered(r, [])
  {
  }

  /** A place of an earlier importer or of an earlier group of this one. */
  predicate EarlierGroup(p: Place, importer: string, g: DepGroup)
    requires !p.OverrideAt?
  {
    || Below(p.importer, importer)
    || (p.importer == importer && p.DepAt? && GroupIndex(p.group) < GroupIndex(g))
  }

  lemma GroupAppend(r: Repo, placesSoFar: seq<Place>, places: seq<Place>, importer: string, g: DepGroup, name: string)
    requires Ordered(r, places) && importer in r.manifests
    requires forall p <- placesSoFar :: p.OverrideAt? || EarlierGroup(p, importer, g)
    requires forall p <- places :: p in placesSoFar
               || (p.DepAt? && p.importer == importer && p.group == g
                   && (OnlyLocked(r, p) ==> name !in r.manifests[importer].In(g)))
    ensures Ordered(r, places + [DepAt(importer, g, name)])
  {
    hide Ordered, Below;
    forall q <- places
      ensures MayPrecede(r, q, DepAt(importer, g, name))
    {
      if q in placesSoFar && !q.OverrideAt? { NotBelowItself(q.importer, importer); }
    }
    OrderedAppend(r, places, DepAt(importer, g, name));
  }

  lemma NotBelowItself(a: string, b: string)
    ensures Below(a, b) ==> a != b
  {
    OneIsBelow(a, b);
  }

  /** The two loops over one dependency group of one importer, appended to what is there. */
  method GroupDrifts(r: Repo, importer: string, g: DepGroup, soFar: seq<Drift>, ghost placesSoFar: seq<Place>)
    returns (drift: seq<Drift>, ghost places: seq<Place>)
    requires importer in r.manifests && importer in r.locked
    requires Located(r, placesSoFar, soFar) && Ordered(r, placesSoFar)
    requires forall p <- placesSoFar :: p.OverrideAt? || EarlierGroup(p, importer, g)
    ensures Located(r, places, drift) && Ordered(r, places)
    ensures forall p <- places :: p in placesSoFar || (p.DepAt? && p.importer == importer && p.group == g)
    ensures forall p <- placesSoFar :: p in places
    ensures forall name | DriftAt(r, DepAt(importer, g, name)).Some? :: DepAt(importer, g, name) in places
  {
    hide Located, Ordered, MayPrecede, Below;
    NotBelowItself(importer, importer);
    assert forall name :: DepAt(importer, g, name) !in placesSoFar;
    drift, places := soFar, placesSoFar;
    var mine, theirs := r.manifests[importer].In(g), r.locked[importer].In(g);
    var names := mine.Keys;
    while names != {}
      invariant names <= mine.Keys
      invariant Located(r, places, drift) && Ordered(r, places)
      invariant forall p <- placesSoFar :: p in places
      invariant forall p <- places :: p in placesSoFar || (p.DepAt? && p.importer == importer && p.group == g && p.name in mine && p.name !in names)
      invariant forall name | name in mine && name !in names && DriftAt(r, DepAt(importer, g, name)).Some? ::
                  DepAt(importer, g, name) in places
    {
      var name :| name in names;
      names := names - {name};
      var spec := mine[name];
      var expected := Expected(r.overrides, name, spec);
      if name !in theirs {
        LocatedAppend(r, places, drift, DepAt(importer, g, name));
        GroupAppend(r, placesSoFar, places, importer, g, name);
        drift := drift + [Drift(importer, g, name, MissingFromLockfile, Blocking, Some(spec), None)];
        places := places + [DepAt(importer, g, name)];
      } else if theirs[name] != expected {
        LocatedAppend(r, places, drift, DepAt(importer, g, name));
        GroupAppend(r, placesSoFar, places, importer, g, name);
        drift := drift + [Drift(importer, g, name, SpecifierChanged, Blocking, Some(expected), Some(theirs[name]))];
        places := places + [DepAt(importer, g, name)];
      }
    }
    names := theirs.Keys;
    while names != {}
      invariant names <= theirs.Keys
      invariant Located(r, places, drift) && Ordered(r, places)
      invariant forall p <- placesSoFar :: p in places
      invariant forall p <- places :: p in placesSoFar || (p.DepAt? && p.importer == importer && p.group == g && (p.name in mine || p.name !in names))
      invariant forall name | name in mine && DriftAt(r, DepAt(importer, g, name)).Some? :: DepAt(importer, g, name) in places
      invariant forall name | name in theirs && name !in names && DriftAt(r, DepAt(importer, g, name)).Some? ::
                  DepAt(importer, g, name) in places
    {
      var name :| name in names;
      names := names - {name};
      if name !in mine {
        LocatedAppend(r, places, drift, DepAt(importer, g, name));
        GroupAppend(r, placesSoFar, places, importer, g, name);
        drift := drift + [Drift(importer, g, name, MissingFromManifest, Blocking, None, Some(theirs[name]))];
        places := places + [DepAt(importer, g, name)];
      }
    }
  }

  method FindDrift(r: Repo) returns (drift: seq<Drift>, ghost places: seq<Place>)
    ensures Exact(r, places, drift) && Ordered(r, places)
    ensures forall d :: d in drift <==> exists p :: DriftAt(r, p) == Some(d)
  {
    hide Located, Ordered, OverrideDrift, DepDrift, Below, Ascending, MayPrecede;
    drift, places := OverrideDrifts(r);
    var importers := Sorted(r.Importers());
    for i := 0 to |importers|
      invariant Located(r, places, drift) && Ordered(r, places)
      invariant forall name | DriftAt(r, OverrideAt(name)).Some? :: OverrideAt(name) in places
      invariant forall p <- places :: p.OverrideAt? || p.importer in importers[..i]
      invariant forall p: Place | !p.OverrideAt? && p.importer in importers[..i] && DriftAt(r, p).Some? :: p in places
    {
      var importer := importers[i];
      NextImporter(importers, i);
      if importer !in r.manifests || importer !in r.locked {
        LocatedAppend(r, places, drift, ImporterAt(importer));
        ImporterAppend(r, places, importer);
        drift := drift + [Drift(importer, Dependencies, IMPORTER,
          if importer !in r.manifests then MissingFromManifest else MissingFromLockfile,
          if importer !in r.manifests then Advisory else Blocking,
          if importer !in r.manifests then None else Some("present"),
          if importer !in r.locked then None else Some("present"))];
        places := places + [ImporterAt(importer)];
      } else {
        drift, places := GroupDrifts(r, importer, Dependencies, drift, places);
        drift, places := GroupDrifts(r, importer, DevDependencies, drift, places);
        drift, places := GroupDrifts(r, importer, OptionalDependencies, drift, places);
      }
      forall p: Place | !p.OverrideAt? && p.importer == importer && DriftAt(r, p).Some?
        ensures p in places
      {
        if p.DepAt? { assert p == DepAt(importer, p.group, p.name); }
      }
    }
    assert importers[..|importers|] == importers;
    forall d
      ensures d in drift <==> exists p :: DriftAt(r, p) == Some(d)
    {
      ListedIffDiffers(r, places, drift, d);
    }
  }

  lemma NextImporter(importers: seq<string>, i: nat)
    requires Ascending(importers) && i < |importers|
    ensures forall x <- importers[..i] :: Below(x, importers[i]) && x != importers[i]
    ensures forall x :: x in importers[..i + 1] <==> x in importers[..i] || x == importers[i]
  {
    hide Below;
    assert importers[..i + 1] == importers[..i] + [importers[i]];
    forall x <- importers[..i]
      ensures Below(x, importers[i]) && x != importers[i]
    {
      var j :| 0 <= j < i && importers[j] == x;
      NotBelowItself(x, importers[i]);
    }
  }

  lemma ImporterAppend(r: Repo, places: seq<Place>, importer: string)
    requires Ordered(r, places)
    requires forall p <- places :: p.OverrideAt? || (Below(p.importer, importer) && p.importer != importer)
    ensures Ordered(r, places + [ImporterAt(importer)])
  {
    hide Ordered, Below;
    OrderedAppend(r, places, ImporterAt(importer));
  }

  lemma ListedIffDiffers(r: Repo, places: seq<Place>, drift: seq<Drift>, d: Drift)
    requires Exact(r, places, drift)
    ensures d in drift <==> exists p :: DriftAt(r, p) == Some(d)
  {
    hide DriftAt;
    if d in drift {
      var i :| 0 <= i < |drift| && drift[i] == d;
      assert DriftAt(r, places[i]) == Some(d);
    }
    if p :| DriftAt(r, p) == Some(d) {
      var i :| 0 <= i < |places| && places[i] == p;
      assert drift[i] == d;
    }
  }

  // ---------------------------------------------------------------- what a clean report means

  function Substituted(overrides: Specs, specs: Specs): Specs {
    map name | name in specs :: Expected(overrides, name, specs[name])
  }

  /** Every manifest the comparison sees is recorded, group by group, with overrides substituted. */
  ghost predicate Recorded(r: Repo) {
    forall importer | importer in r.Importers() && importer in r.manifests ::
      && importer in r.locked
      && forall g: DepGroup :: r.locked[importer].In(g) == Substituted(r.overrides, r.manifests[importer].In(g))
  }

  /** The override tables agree, as far as `in` on a plain object can tell. */
  ghost predicate OverridesAgree(r: Repo) {
    r.declared == r.overrides - (INHERITED - r.declared.Keys)
  }

  lemma CleanAt(r: Repo, places: seq<Place>, drift: seq<Drift>)
    requires Exact(r, places, drift)
    ensures Clean(drift) <==> forall p | DriftAt(r, p).Some? :: DriftAt(r, p).value.severity == Advisory
  {
    hide DriftAt;
    if Clean(drift) {
      forall p | DriftAt(r, p).Some?
        ensures DriftAt(r, p).value.severity == Advisory
      {
        var i :| 0 <= i < |places| && places[i] == p;
        assert drift[i] in drift;
      }
    } else {
      var i :| 0 <= i < |drift| && drift[i].severity != Advisory;
      assert DriftAt(r, places[i]) == Some(drift[i]);
    }
  }

  /** Sound and complete: nothing blocking is reported exactly when the override tables agree and every
      importer with a manifest is recorded as the manifest says. */
  lemma CleanIffRecorded(r: Repo, places: seq<Place>, drift: seq<Drift>)
    requires Exact(r, places, drift)
    ensures Clean(drift) <==> OverridesAgree(r) && Recorded(r)
  {
    hide Exact;
    CleanAt(r, places, drift);
    var advisory := forall p | DriftAt(r, p).Some? :: DriftAt(r, p).value.severity == Advisory;
    if advisory {
      AdvisoryAgrees(r);
      forall importer | importer in r.Importers() && importer in r.manifests
        ensures importer in r.locked
        ensures forall g: DepGroup :: r.locked[importer].In(g) == Substituted(r.overrides, r.manifests[importer].In(g))
      {
        AdvisoryRecorded(r, importer);
      }
    }
    if OverridesAgree(r) && Recorded(r) {
      forall p | DriftAt(r, p).Some?
        ensures DriftAt(r, p).value.severity == Advisory
      {
        RecordedIsAdvisory(r, p);
      }
    }
  }

  lemma AdvisoryAgrees(r: Repo)
    requires forall p | DriftAt(r, p).Some? :: DriftAt(r, p).value.severity == Advisory
    ensures OverridesAgree(r)
  {
    var seen := r.overrides - (INHERITED - r.declared.Keys);
    forall name
      ensures name in r.declared <==> name in seen
      ensures name in r.declared ==> r.declared[name] == seen[name]
    {
      assert DriftAt(r, OverrideAt(name)) == OverrideDrift(r, name);
    }
  }

  lemma AdvisoryRecorded(r: Repo, importer: string)
    requires forall p | DriftAt(r, p).Some? :: DriftAt(r, p).value.severity == Advisory
    requires importer in r.Importers() && importer in r.manifests
    ensures importer in r.locked
    ensures forall g: DepGroup :: r.locked[importer].In(g) == Substituted(r.overrides, r.manifests[importer].In(g))
  {
    assert DriftAt(r, ImporterAt(importer)) == ImporterDrift(r, importer);
    forall g: DepGroup
      ensures r.locked[importer].In(g) == Substituted(r.overrides, r.manifests[importer].In(g))
    {
      var mine, theirs := r.manifests[importer].In(g), r.locked[importer].In(g);
      forall name
        ensures name in theirs <==> name in mine
        ensures name in mine ==> theirs[name] == Expected(r.overrides, name, mine[name])
      {
        assert DriftAt(r, DepAt(importer, g, name)) == DepDrift(r.overrides, importer, g, mine, theirs, name);
      }
    }
  }

  lemma RecordedIsAdvisory(r: Repo, p: Place)
    requires OverridesAgree(r) && Recorded(r) && DriftAt(r, p).Some?
    requires p.DepAt? ==> p.importer in r.Importers()
    ensures DriftAt(r, p).value.severity == Advisory
  {
    if p.OverrideAt? {
      AgreedOverride(r, p.name);
    } else if p.DepAt? {
      RecordedDep(r, p.importer, p.group, p.name);
    }
  }

  lemma AgreedOverride(r: Repo, name: string)
    requires OverridesAgree(r)
    ensures OverrideDrift(r, name).None?
  {
    assert name in r.declared <==> name in r.overrides - (INHERITED - r.declared.Keys);
  }

  lemma RecordedDep(r: Repo, importer: string, g: DepGroup, name: string)
    requires Recorded(r) && importer in r.Importers()
    ensures DriftAt(r, DepAt(importer, g, name)).None?
  {
    if importer in r.manifests {
      assert r.locked[importer].In(g) == Substituted(r.overrides, r.manifests[importer].In(g));
    }
  }

  /** Where the report can be clean although the override tables differ, and exactly where: a locked
      override that the manifest does not declare, named like a property every object inherits. */
  lemma CleanTablesEqualIff(r: Repo, places: seq<Place>, drift: seq<Drift>)
    requires Exact(r, places, drift) && Clean(drift)
    ensures r.declared == r.overrides <==> r.overrides.Keys * INHERITED <= r.declared.Keys
  {
    CleanIffRecorded(r, places, drift);
    if r.overrides.Keys * INHERITED <= r.declared.Keys {
      assert r.overrides - (INHERITED - r.declared.Keys) == r.overrides;
    }
  }

  /** Such a repository exists: a lockfile override of `constructor` nobody declared goes unreported. */
  lemma InheritedOverrideUnseen() returns (r: Repo)
    ensures r.declared != r.overrides
    ensures forall p :: DriftAt(r, p).None?
  {
    r := Repo(map[], map["constructor" := "1.0.0"], {}, map[], map[]);
    assert "constructor" in r.overrides;
  }

  /** An importer without a manifest is only ever advisory. */
  lemma NoManifestIsAdvisory(r: Repo, p: Place)
    requires DriftAt(r, p).Some? && !p.OverrideAt? && p.importer !in r.manifests
    ensures DriftAt(r, p).value.severity == Advisory
  {
  }

  // ---------------------------------------------------------------- nothing is reported twice

  predicate SameKey(d: Drift, e: Drift) {
    d.importer == e.importer && d.group == e.group && d.name == e.name
  }

  /** An importer is called what override drifts are filed under, and there is one of those. */
  ghost predicate KeysMayCollide(r: Repo) {
    OVERRIDES in r.Importers() && exists name :: OverrideDrift(r, name).Some?
  }

  /** No (importer, group, name) is reported twice otherwise. */
  lemma KeysDistinct(r: Repo, p: Place, q: Place)
    requires !KeysMayCollide(r) && p != q && DriftAt(r, p).Some? && DriftAt(r, q).Some?
    ensures !SameKey(DriftAt(r, p).value, DriftAt(r, q).value)
  {
    hide Expected;
    OneOfTheTwo(r, p);
    OneOfTheTwo(r, q);
    assert p.OverrideAt? ==> OverrideDrift(r, p.name).Some?;
    assert q.OverrideAt? ==> OverrideDrift(r, q.name).Some?;
  }

  lemma OneOfTheTwo(r: Repo, p: Place)
    requires DriftAt(r, p).Some?
    ensures DriftAt(r, p).value.importer == if p.OverrideAt? then OVERRIDES else p.importer
    ensures !p.OverrideAt? ==> p.importer in r.Importers()
  {
  }

  /** A repository with the same override tables and the same importers. */
  predicate SameFrame(r: Repo, s: Repo) {
    s.declared == r.declared && s.overrides == r.overrides && s.Importers() == r.Importers()
  }

  lemma KeysCollide(r: Repo, name: string) returns (s: Repo, p: Place, q: Place)
    requires OVERRIDES in r.Importers() && OverrideDrift(r, name).Some?
    ensures SameFrame(r, s)
    ensures p != q && DriftAt(s, p).Some? && DriftAt(s, q).Some? && SameKey(DriftAt(s, p).value, DriftAt(s, q).value)
  {
    var wants := ImporterSpecs(map[name := ""], map[], map[]);
    s := r.(manifests := r.manifests[OVERRIDES := wants], locked := r.locked[OVERRIDES := EMPTY]);
    p, q := OverrideAt(name), DepAt(OVERRIDES, Dependencies, name);
  }

  /** Exactly when: given the override tables and the importers, two reports can share their importer, group
      and name, for some manifests and some lockfile, if and only if an importer is called "(overrides)" and
      some override drifts. */
  lemma KeysCollideIff(r: Repo)
    ensures KeysMayCollide(r) <==>
            exists s, p, q :: SameFrame(r, s) && p != q && DriftAt(s, p).Some? && DriftAt(s, q).Some?
              && SameKey(DriftAt(s, p).value, DriftAt(s, q).value)
  {
    hide DriftAt;
    if KeysMayCollide(r) {
      var name :| OverrideDrift(r, name).Some?;
      var s, p, q := KeysCollide(r, name);
    }
    forall s, p, q | SameFrame(r, s) && p != q && DriftAt(s, p).Some? && DriftAt(s, q).Some?
        && SameKey(DriftAt(s, p).value, DriftAt(s, q).value)
      ensures KeysMayCollide(r)
    {
      assert KeysMayCollide(s) by { if !KeysMayCollide(s) { KeysDistinct(s, p, q); } }
      SameOverrideDrifts(r, s);
    }
  }

  lemma SameOverrideDrifts(r: Repo, s: Repo)
    requires SameFrame(r, s)
    ensures KeysMayCollide(r) <==> KeysMayCollide(s)
  {
    assert forall name :: OverrideDrift(r, name) == OverrideDrift(s, name);
  }

  /** So a report repeats no importer, group and name unless the two come together. */
  lemma ReportKeysDistinct(r: Repo, places: seq<Place>, drift: seq<Drift>, i: nat, j: nat)
    requires Located(r, places, drift) && i < j < |drift| && !KeysMayCollide(r)
    ensures !SameKey(drift[i], drift[j])
  {
    hide DriftAt, KeysMayCollide;
    KeysDistinct(r, places[i], places[j]);
  }

  // ---------------------------------------------------------------- the list as a patch

  /** Carry out one report: record what is missing or wrong, drop what nothing asks for. */
  function Apply(overrides: Specs, locked: Importers, d: Drift): Importers {
    if d.importer !in locked || d.severity == Advisory then locked
    else
      var theirs := locked[d.importer].In(d.group);
      var fixed :=
        if d.kind == MissingFromManifest then theirs - {d.name}
        else if d.manifestSpec.Some? then theirs[d.name := Expected(overrides, d.name, d.manifestSpec.value)]
        else theirs;
      locked[d.importer := locked[d.importer].With(d.group, fixed)]
  }

  function ApplyAll(overrides: Specs, locked: Importers, drift: seq<Drift>): Importers {
    if drift == [] then locked
    else Apply(overrides, ApplyAll(overrides, locked, drift[..|drift| - 1]), drift[|drift| - 1])
  }

  /** Only dependencies differ: every importer with a manifest is in the lockfile. */
  ghost predicate DependencyLevel(r: Repo) {
    OverridesAgree(r) && forall importer | importer in r.Importers() && importer in r.manifests :: importer in r.locked
  }

  function Patched(r: Repo, drift: seq<Drift>): Repo {
    r.(locked := ApplyAll(r.overrides, r.locked, drift))
  }

  /** One report repairs its own place and leaves every other place as it was. */
  lemma ApplyRepairs(r: Repo, d: Drift, p: Place, q: Place)
    requires p.DepAt? && DriftAt(r, p) == Some(d)
    ensures var s := r.(locked := Apply(r.overrides, r.locked, d));
            && s.locked.Keys == r.locked.Keys
            && DriftAt(s, p) == None && (q != p ==> DriftAt(s, q) == DriftAt(r, q))
  {
  }

  lemma {:induction false} PatchRepairs(r: Repo, places: seq<Place>, drift: seq<Drift>, q: Place)
    requires Located(r, places, drift)
    requires forall p <- places :: p.DepAt? || DriftAt(r, p).value.severity == Advisory
    ensures var s := Patched(r, drift);
            && s.locked.Keys == r.locked.Keys
            && DriftAt(s, q) == if q in places && q.DepAt? then None else DriftAt(r, q)
    decreases |drift|
  {
    hide DriftAt, Apply;
    if drift != [] {
      var n := |drift| - 1;
      var p, d := places[n], drift[n];
      assert Located(r, places[..n], drift[..n]);
      assert places == places[..n] + [p];
      PatchRepairs(r, places[..n], drift[..n], q);
      PatchRepairs(r, places[..n], drift[..n], p);
      assert p !in places[..n];
      var s := Patched(r, drift[..n]);
      assert DriftAt(s, p) == Some(d);
      if p.DepAt? {
        ApplyRepairs(s, d, p, q);
      } else {
        AdvisoryApplies(r.overrides, s.locked, d);
      }
    }
  }

  lemma AdvisoryApplies(overrides: Specs, locked: Importers, d: Drift)
    requires d.severity == Advisory
    ensures Apply(overrides, locked, d) == locked
  {
  }

  /** When only dependencies differ, carrying out the list, in whatever order it was reported, gives a
      lockfile that records every manifest: nothing blocking is left after one pass. */
  lemma PatchCleans(r: Repo, places: seq<Place>, drift: seq<Drift>)
    requires Exact(r, places, drift) && DependencyLevel(r)
    ensures OverridesAgree(Patched(r, drift)) && Recorded(Patched(r, drift))
    ensures forall p | DriftAt(Patched(r, drift), p).Some? :: DriftAt(Patched(r, drift), p).value.severity == Advisory
  {
    hide Expected, ApplyAll;
    var s := Patched(r, drift);
    forall p | DriftAt(r, p).Some?
      ensures p.DepAt? || DriftAt(r, p).value.severity == Advisory
    {
      if p.OverrideAt? { AgreedOverride(r, p.name); }
    }
    forall p <- places
      ensures p.DepAt? || DriftAt(r, p).value.severity == Advisory
    {
      var i :| 0 <= i < |places| && places[i] == p;
      assert DriftAt(r, places[i]) == Some(drift[i]);
    }
    forall p
      ensures DriftAt(s, p).Some? ==> DriftAt(s, p).value.severity == Advisory
      ensures s.locked.Keys == r.locked.Keys
    {
      PatchRepairs(r, places, drift, p);
    }
    forall importer | importer in s.Importers() && importer in s.manifests
      ensures importer in s.locked
      ensures forall g: DepGroup :: s.locked[importer].In(g) == Substituted(s.overrides, s.manifests[importer].In(g))
    {
      AdvisoryRecorded(s, importer);
    }
  }
}
