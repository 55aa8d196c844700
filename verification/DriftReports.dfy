/** What one report of the lockfile check says, from what the two sides hold for its place. */
module DriftReports {
  import opened Wrappers
  import opened LockfileParser
  import opened LockfileDrift
  import opened Text

  function Lookup<T>(table: map<string, T>, key: string): Option<T> {
    if key in table then Some(table[key]) else None
  }

  /** What the manifests say of a place. */
  function Asked(r: Repo, p: Place): Option<string> {
    match p
    case OverrideAt(name) => Lookup(r.declared, name)
    case ImporterAt(importer) => if importer in r.manifests then Some("present") else None
    case DepAt(importer, g, name) =>
      if importer in r.manifests then Lookup(r.manifests[importer].In(g), name) else None
  }

  /** What the lockfile says of it. */
  function Locked(r: Repo, p: Place): Option<string> {
    match p
    case OverrideAt(name) => Lookup(r.overrides, name)
    case ImporterAt(importer) => if importer in r.locked then Some("present") else None
    case DepAt(importer, g, name) => if importer in r.locked then Lookup(r.locked[importer].In(g), name) else None
  }

  /** What the lockfile should say, the manifests being what they are: a dependency that is overridden is
      recorded under its override. */
  function Due(r: Repo, p: Place): Option<string> {
    if p.DepAt? && Asked(r, p).Some? && p.name in r.overrides then Some(r.overrides[p.name]) else Asked(r, p)
  }

  /** The two sides differ at a place that is compared: a dependency only where the importer is on both sides,
      and an override nobody declared only under a name no object inherits. */
  predicate Differs(r: Repo, p: Place) {
    match p
    case OverrideAt(name) => Due(r, p) != Locked(r, p) && (Asked(r, p).Some? || name !in INHERITED)
    case ImporterAt(importer) =>
      (importer in r.onDisk || importer in r.locked) && (Asked(r, p).None? || Locked(r, p).None?)
    case DepAt(importer, g, name) => importer in r.manifests && importer in r.locked && Due(r, p) != Locked(r, p)
  }

  /** The report on a place: where it is, which side lacks it, whether it blocks, and what either side says. A
      changed specifier is reported against what the lockfile should say, a missing one as it is written. */
  predicate Reports(r: Repo, p: Place, d: Drift) {
    && d.importer == (if p.OverrideAt? then "(overrides)" else p.importer)
    && d.group == (if p.DepAt? then p.group else Dependencies)
    && d.name == (if p.ImporterAt? then "(importer)" else p.name)
    && (d.kind == MissingFromManifest <==> Asked(r, p).None?)
    && (d.kind == MissingFromLockfile <==> Asked(r, p).Some? && Locked(r, p).None?)
    && (d.severity == Advisory <==> p.ImporterAt? && Asked(r, p).None?)
    && d.lockfileSpec == Locked(r, p)
    && d.manifestSpec == (if d.kind == SpecifierChanged then Due(r, p) else Asked(r, p))
  }

  /** A place is reported exactly when the two sides differ there, and the report says how. */
  lemma ReportedIffDiffers(r: Repo, p: Place)
    ensures DriftAt(r, p).Some? <==> Differs(r, p)
    ensures DriftAt(r, p).Some? ==> Reports(r, p, DriftAt(r, p).value)
  {
  }

  /** And it says nothing else: two reports on one place are the same. */
  lemma ReportsDetermine(r: Repo, p: Place, d: Drift, e: Drift)
    requires Reports(r, p, d) && Reports(r, p, e)
    ensures d == e
  {
    assert d.kind == e.kind;
  }

  /** So the list that findDrift returns is this: a report for each place where the sides differ, and no other. */
  lemma ListIsTheDifferences(r: Repo, places: seq<Place>, drift: seq<Drift>, d: Drift)
    requires Exact(r, places, drift)
    ensures d in drift <==> exists p: Place :: Differs(r, p) && Reports(r, p, d)
  {
    hide DriftAt, Exact, Differs, Reports;
    ListedIffDiffers(r, places, drift, d);
    forall p: Place
      ensures DriftAt(r, p) == Some(d) <==> Differs(r, p) && Reports(r, p, d)
    {
      ReportedIffDiffers(r, p);
      if Differs(r, p) && Reports(r, p, d) { ReportsDetermine(r, p, d, DriftAt(r, p).value); }
    }
  }

  /** In which order the list is: overrides before importers, importers as sorted, and of one importer the three
      groups one after the other. Of one table what is declared comes before what is only locked. */
  lemma ListOrder(r: Repo, places: seq<Place>, i: nat, j: nat)
    requires Ordered(r, places) && i < j < |places|
    ensures places[j].OverrideAt? ==> places[i].OverrideAt?
    ensures !places[i].OverrideAt? && !places[j].OverrideAt? && places[i].importer != places[j].importer ==>
              Below(places[i].importer, places[j].importer)
    ensures places[i].DepAt? && places[j].DepAt? && places[i].importer == places[j].importer ==>
              && (places[j].group == Dependencies ==> places[i].group == Dependencies)
              && (places[i].group == OptionalDependencies ==> places[j].group == OptionalDependencies)
    ensures places[i].OverrideAt? && places[j].OverrideAt? && places[j].name in r.declared ==> places[i].name in r.declared
    ensures places[i].DepAt? && places[j].DepAt? && places[i].importer == places[j].importer
            && places[j].importer in r.manifests
            && places[i].group == places[j].group && places[j].name in r.manifests[places[j].importer].In(places[j].group)
            ==> places[i].name in r.manifests[places[i].importer].In(places[i].group)
  {
    hide Below;
    assert MayPrecede(r, places[i], places[j]);
  }
}
