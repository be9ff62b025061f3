/** The application import of `importcmd`: existing apps of the tenant and the
    apps described in the YAML configuration are matched by name into the
    three maps `creates`, `updates` and `deletes`, and the import reports how
    many operations of each kind it carried out. */
module AppImport {
  import opened Wrappers

  /** An application as the import sees it. It is matched by `name` alone; the
      other fields of the management API's client model are carried along in
      `details` and never looked at. */
  datatype App = App(name: string, details: map<string, string>)

  /** The counts the import reports (`ImportChanges`). */
  datatype ImportChanges = ImportChanges(creates: int, updates: int, deletes: int)

  /** The three maps produced by matching, keyed by app name. */
  datatype Plan = Plan(creates: map<string, App>, updates: map<string, App>, deletes: map<string, App>)

  /** The names occurring in a list of apps. */
  ghost function Names(apps: seq<App>): set<string>
  {
    set a | a in apps :: a.name
  }

  /** Every value of `m` is stored under its own name. */
  ghost predicate KeyedByName(m: map<string, App>)
  {
    forall k :: k in m ==> m[k].name == k
  }

  /** The name-keyed index of a list of apps, built front to back: an app
      overwrites any earlier app of the same name. */
  function Index(apps: seq<App>): map<string, App>
  {
    if apps == [] then map[]
    else Index(apps[..|apps| - 1])[apps[|apps| - 1].name := apps[|apps| - 1]]
  }

  /** The entries of `index` whose name is among `names`. */
  function Restrict(index: map<string, App>, names: set<string>): map<string, App>
  {
    map k | k in index && k in names :: index[k]
  }

  /** What matching is meant to produce: every new app indexed by name; the
      existing apps indexed by name and split by whether their name is a new
      app's name (kept for update) or not (to be deleted). */
  function Distribute(existingApps: seq<App>, newApps: seq<App>): Plan
  {
    var creates := Index(newApps);
    var existing := Index(existingApps);
    Plan(creates, Restrict(existing, creates.Keys), existing - creates.Keys)
  }

  /** The keys of the index are exactly the names in the list, and every app
      is stored under its own name. */
  lemma {:induction false} IndexKeys(apps: seq<App>)
    ensures Index(apps).Keys == Names(apps)
    ensures KeyedByName(Index(apps))
  {
    if apps != [] {
      var init, last := apps[..|apps| - 1], apps[|apps| - 1];
      IndexKeys(init);
      assert apps == init + [last];
      assert Names(apps) == Names(init) + {last.name};
    }
  }

  /** Last writer wins: the app stored under a name is the last app of that
      name in list order. */
  lemma {:induction false} IndexLastWriter(apps: seq<App>, i: nat)
    requires i < |apps|
    requires forall j :: i < j < |apps| ==> apps[j].name != apps[i].name
    ensures apps[i].name in Index(apps)
    ensures Index(apps)[apps[i].name] == apps[i]
  {
    if i < |apps| - 1 {
      IndexLastWriter(apps[..|apps| - 1], i);
    }
  }

  /** Indexing one more app adds (or overwrites) exactly its own entry on
      either side of the split. */
  lemma SplitStep(index: map<string, App>, a: App, names: set<string>)
    ensures Restrict(index[a.name := a], names)
         == if a.name in names then Restrict(index, names)[a.name := a] else Restrict(index, names)
    ensures index[a.name := a] - names
         == if a.name in names then index - names else (index - names)[a.name := a]
  {
  }

  /** The loop of `distributeAppOperations`: index the new apps as `creates`,
      then file each existing app under its name in `updates` when that name
      is a key of `creates` and in `deletes` otherwise. */
  method DistributeAppOperations(existingApps: seq<App>, newApps: seq<App>)
    returns (creates: map<string, App>, updates: map<string, App>, deletes: map<string, App>)
    ensures Plan(creates, updates, deletes) == Distribute(existingApps, newApps)
  {
    creates := map[];
    for i := 0 to |newApps|
      invariant creates == Index(newApps[..i])
    {
      assert newApps[..i + 1][..i] == newApps[..i];
      creates := creates[newApps[i].name := newApps[i]];
    }
    assert newApps[..|newApps|] == newApps;

    updates := map[];
    deletes := map[];
    for j := 0 to |existingApps|
      invariant updates == Restrict(Index(existingApps[..j]), creates.Keys)
      invariant deletes == Index(existingApps[..j]) - creates.Keys
    {
      var existingApp := existingApps[j];
      assert existingApps[..j + 1][..j] == existingApps[..j];
      SplitStep(Index(existingApps[..j]), existingApp, creates.Keys);
      if existingApp.name in creates {
        updates := updates[existingApp.name := existingApp];
      } else {
        deletes := deletes[existingApp.name := existingApp];
      }
    }
    assert existingApps[..|existingApps|] == existingApps;
  }

  /** `creates` is keyed by exactly the names of the new apps, whatever the
      existing apps are: a name matched by an existing app stays in `creates`. */
  lemma CreatesKeys(existingApps: seq<App>, newApps: seq<App>)
    ensures Distribute(existingApps, newApps).creates.Keys == Names(newApps)
    ensures KeyedByName(Distribute(existingApps, newApps).creates)
  {
    IndexKeys(newApps);
  }

  /** Of several new apps sharing a name, `creates` holds the last one. */
  lemma CreatesLastWriter(existingApps: seq<App>, newApps: seq<App>, i: nat)
    requires i < |newApps|
    requires forall j :: i < j < |newApps| ==> newApps[j].name != newApps[i].name
    ensures newApps[i].name in Distribute(existingApps, newApps).creates
    ensures Distribute(existingApps, newApps).creates[newApps[i].name] == newApps[i]
  {
    IndexLastWriter(newApps, i);
  }

  /** An existing app whose name is a new app's name is filed in `updates`
      under that name, not in `deletes`; the value stored is an existing app
      (the last existing one of that name), never the new one. */
  lemma MatchedGoesToUpdates(existingApps: seq<App>, newApps: seq<App>, i: nat)
    requires i < |existingApps|
    requires existingApps[i].name in Names(newApps)
    ensures existingApps[i].name in Distribute(existingApps, newApps).updates
    ensures existingApps[i].name !in Distribute(existingApps, newApps).deletes
    ensures Distribute(existingApps, newApps).updates[existingApps[i].name] in existingApps
    ensures (forall j :: i < j < |existingApps| ==> existingApps[j].name != existingApps[i].name)
        ==> Distribute(existingApps, newApps).updates[existingApps[i].name] == existingApps[i]
  {
    IndexKeys(newApps);
    IndexKeys(existingApps);
    IndexValues(existingApps, existingApps[i].name);
    if forall j :: i < j < |existingApps| ==> existingApps[j].name != existingApps[i].name {
      IndexLastWriter(existingApps, i);
    }
  }

  /** An existing app whose name is no new app's name is filed in `deletes`
      under that name, not in `updates`. */
  lemma UnmatchedGoesToDeletes(existingApps: seq<App>, newApps: seq<App>, i: nat)
    requires i < |existingApps|
    requires existingApps[i].name !in Names(newApps)
    ensures existingApps[i].name in Distribute(existingApps, newApps).deletes
    ensures existingApps[i].name !in Distribute(existingApps, newApps).updates
    ensures Distribute(existingApps, newApps).deletes[existingApps[i].name] in existingApps
    ensures (forall j :: i < j < |existingApps| ==> existingApps[j].name != existingApps[i].name)
        ==> Distribute(existingApps, newApps).deletes[existingApps[i].name] == existingApps[i]
  {
    IndexKeys(newApps);
    IndexKeys(existingApps);
    IndexValues(existingApps, existingApps[i].name);
    if forall j :: i < j < |existingApps| ==> existingApps[j].name != existingApps[i].name {
      IndexLastWriter(existingApps, i);
    }
  }

  /** Every value of the index is one of the listed apps. */
  lemma {:induction false} IndexValues(apps: seq<App>, k: string)
    requires k in Index(apps)
    ensures Index(apps)[k] in apps
  {
    var init, last := apps[..|apps| - 1], apps[|apps| - 1];
    if k != last.name {
      IndexValues(init, k);
    }
  }

  /** `updates` and `deletes` split the existing names between them: their
      keys are disjoint and together are exactly the existing names;
      `updates` keys are `creates` keys and `deletes` keys are not. */
  lemma Partition(existingApps: seq<App>, newApps: seq<App>)
    ensures var plan := Distribute(existingApps, newApps);
      && plan.updates.Keys !! plan.deletes.Keys
      && plan.updates.Keys + plan.deletes.Keys == Names(existingApps)
      && plan.updates.Keys <= plan.creates.Keys
      && plan.deletes.Keys !! plan.creates.Keys
  {
    IndexKeys(existingApps);
  }

  /** The count of each map: `creates` has one entry per distinct new name,
      `updates` one per existing name that is also new, `deletes` one per
      existing name that is not. */
  lemma {:induction false} Sizes(existingApps: seq<App>, newApps: seq<App>)
    ensures var plan := Distribute(existingApps, newApps);
      && |plan.creates| == |Names(newApps)|
      && |plan.updates| == |Names(existingApps) * Names(newApps)|
      && |plan.deletes| == |Names(existingApps) - Names(newApps)|
  {
    IndexKeys(existingApps);
    IndexKeys(newApps);
    var plan := Distribute(existingApps, newApps);
    assert plan.updates.Keys == Names(existingApps) * Names(newApps);
    assert plan.deletes.Keys == Names(existingApps) - Names(newApps);
  }

  /** With no new apps, nothing is created or updated and every existing app
      is to be deleted. */
  lemma NoNewApps(existingApps: seq<App>)
    ensures Distribute(existingApps, []).creates == map[]
    ensures Distribute(existingApps, []).updates == map[]
    ensures Distribute(existingApps, []).deletes.Keys == Names(existingApps)
  {
    IndexKeys(existingApps);
  }

  /** When no name is shared, every new name is created, nothing is updated
      and every existing name is deleted. */
  lemma NoSharedNames(existingApps: seq<App>, newApps: seq<App>)
    requires Names(existingApps) !! Names(newApps)
    ensures Distribute(existingApps, newApps).updates == map[]
    ensures Distribute(existingApps, newApps).deletes == Index(existingApps)
  {
    IndexKeys(existingApps);
    IndexKeys(newApps);
  }

  /** `ImportApps`: fetch the existing apps, map the configuration to apps,
      match them, let `diffApps` refine the updates, turn the three maps into
      slices and process them. Fetching, mapping, diffing, slicing and
      processing are supplied by the caller. Any failure yields zero counts
      and the error; on success the counts are the lengths of the slices. */
  method ImportApps<Y>(
    getAllApps: Result<seq<App>>,
    yaml: Y,
    mapYamlToApps: Y -> seq<App>,
    diffApps: (map<string, App>, map<string, App>) -> map<string, App>,
    appsMapToSlice: map<string, App> -> seq<App>,
    processAppOperations: (seq<App>, seq<App>, seq<App>) -> Option<string>)
    returns (changes: ImportChanges, err: Option<string>)
    ensures getAllApps.Err? ==> changes == ImportChanges(0, 0, 0) && err == Some(getAllApps.error)
    ensures getAllApps.Ok? ==>
      var plan := Distribute(getAllApps.value, mapYamlToApps(yaml));
      var createsSlice := appsMapToSlice(plan.creates);
      var updatesSlice := appsMapToSlice(diffApps(plan.updates, plan.creates));
      var deletesSlice := appsMapToSlice(plan.deletes);
      var failure := processAppOperations(createsSlice, updatesSlice, deletesSlice);
      && err == failure
      && changes == if failure.Some? then ImportChanges(0, 0, 0)
                    else ImportChanges(|createsSlice|, |updatesSlice|, |deletesSlice|)
    ensures err.Some? ==> changes == ImportChanges(0, 0, 0)
    ensures err.None? && (forall m :: |appsMapToSlice(m)| == |m|) ==>
      && getAllApps.Ok?
      && changes.creates == |Names(mapYamlToApps(yaml))|
      && changes.deletes == |Names(getAllApps.value) - Names(mapYamlToApps(yaml))|
  {
    if getAllApps.Err? {
      return ImportChanges(0, 0, 0), Some(getAllApps.error);
    }
    var existingApps := getAllApps.value;
    var newApps := mapYamlToApps(yaml);
    var createsMap, updatesMap, deletesMap := DistributeAppOperations(existingApps, newApps);
    updatesMap := diffApps(updatesMap, createsMap);
    var createsSlice := appsMapToSlice(createsMap);
    var updatesSlice := appsMapToSlice(updatesMap);
    var deletesSlice := appsMapToSlice(deletesMap);
    err := processAppOperations(createsSlice, updatesSlice, deletesSlice);
    if err.Some? {
      return ImportChanges(0, 0, 0), err;
    }
    Sizes(existingApps, newApps);
    changes := ImportChanges(|createsSlice|, |updatesSlice|, |deletesSlice|);
  }
}
