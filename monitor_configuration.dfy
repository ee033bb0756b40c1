/**
 * MonitorConfiguration: the settings of the monitoring task. It keeps the list of
 * monitor targets (who receives which entries), the folders to watch and the URLs to
 * ping. Target equality (MonitorTarget.Equals(ITarget)) is not part of this model: it
 * is a parameter `same`, a relation on target names.
 */
module MonitorConfig {
  import opened Wrappers
  import opened Text

  /** Target.Service's name: the target every configuration must have. */
  const ServiceName: string := "Service"

  /** A monitor target: its name and the e-mail addresses that receive its entries. */
  datatype MonitorTarget = MonitorTarget(name: string, recipients: Option<seq<string>>)

  /** The targets of a fresh configuration. */
  const DefaultTargets: seq<MonitorTarget> := [MonitorTarget(ServiceName, None)]

  const NoTargetsMessage: string := "No targets defined for MonitorConfiguration."
  const MissingServiceMessage: string := "Missing required target '" + ServiceName + "' for MonitorConfiguration."
  const MoreThanOneMessage: string := "Sequence contains more than one matching element"

  /** What target equality is expected to be: reflexive, symmetric and transitive. */
  ghost predicate IsEquivalence(same: (string, string) -> bool) {
    (forall a :: same(a, a))
    && (forall a, b :: same(a, b) ==> same(b, a))
    && (forall a, b, c :: same(a, b) && same(b, c) ==> same(a, c))
  }

  // ---------------------------------------------------------------------------
  // Targets.

  /** FirstOrDefault(x => x.Equals(target)): the index of the first target equal to `name`. */
  function FirstMatch(ts: seq<MonitorTarget>, name: string, same: (string, string) -> bool): (r: Option<nat>)
    ensures r.Some? ==> r.value < |ts| && same(ts[r.value].name, name)
    ensures r.Some? ==> forall j :: 0 <= j < r.value ==> !same(ts[j].name, name)
    ensures r.None? ==> forall j :: 0 <= j < |ts| ==> !same(ts[j].name, name)
  {
    if ts == [] then None
    else if same(ts[0].name, name) then Some(0)
    else match FirstMatch(ts[1..], name, same)
      case None => None
      case Some(i) => Some(i + 1)
  }

  /** How many targets are equal to `name`. */
  function CountMatching(ts: seq<MonitorTarget>, name: string, same: (string, string) -> bool): nat {
    if ts == [] then 0 else (if same(ts[0].name, name) then 1 else 0) + CountMatching(ts[1..], name, same)
  }

  /** Targets and result after EnsureMonitorTarget(target) with target.Name == name. */
  function EnsuredTargets(targets: Option<seq<MonitorTarget>>, name: string, same: (string, string) -> bool)
    : (r: (Option<seq<MonitorTarget>>, MonitorTarget))
    ensures r.0.Some? || r.0 == targets
    ensures FirstMatch(targets.GetOr([]), name, same).Some? ==>
      r.0 == targets && r.1 == targets.GetOr([])[FirstMatch(targets.GetOr([]), name, same).value]
      && same(r.1.name, name)
    ensures FirstMatch(targets.GetOr([]), name, same).None? ==>
      r.1 == MonitorTarget(name, None) && r.0 == Some(targets.GetOr([]) + [r.1])
  {
    var existing := targets.GetOr([]);
    match FirstMatch(existing, name, same)
    case Some(i) => (targets, existing[i])
    case None => (Some(existing + [MonitorTarget(name, None)]), MonitorTarget(name, None))
  }

  /** RemoveTarget: every target equal to `name` dropped, the others kept in order. */
  function WithoutTarget(ts: seq<MonitorTarget>, name: string, same: (string, string) -> bool): (r: seq<MonitorTarget>)
    ensures |r| <= |ts|
    ensures forall t :: t in r <==> t in ts && !same(t.name, name)
  {
    if ts == [] then []
    else (if same(ts[0].name, name) then [] else [ts[0]]) + WithoutTarget(ts[1..], name, same)
  }

  /** Assert(): returns the Service target, or the exception Assert throws. */
  function AssertTargets(targets: Option<seq<MonitorTarget>>, same: (string, string) -> bool): Result<MonitorTarget> {
    if targets.None? then Err(InvalidOperation(NoTargetsMessage))
    else if CountMatching(targets.value, ServiceName, same) > 1 then Err(InvalidOperation(MoreThanOneMessage))
    else match FirstMatch(targets.value, ServiceName, same)
      case None => Err(InvalidOperation(MissingServiceMessage))
      case Some(i) => Ok(targets.value[i])
  }

  lemma {:induction false} CountMatchingZero(ts: seq<MonitorTarget>, name: string, same: (string, string) -> bool)
    ensures CountMatching(ts, name, same) == 0 <==> FirstMatch(ts, name, same).None?
  {
    if ts != [] {
      CountMatchingZero(ts[1..], name, same);
    }
  }

  lemma {:induction false} CountMatchingAppend(a: seq<MonitorTarget>, b: seq<MonitorTarget>, name: string, same: (string, string) -> bool)
    ensures CountMatching(a + b, name, same) == CountMatching(a, name, same) + CountMatching(b, name, same)
  {
    if a != [] {
      assert (a + b)[1..] == a[1..] + b;
      CountMatchingAppend(a[1..], b, name, same);
    } else {
      assert a + b == b;
    }
  }

  /**
   * Assert succeeds iff Targets is not null and exactly one target equals Service;
   * the target it finds is that one.
   */
  lemma AssertTargetsIff(targets: Option<seq<MonitorTarget>>, same: (string, string) -> bool)
    ensures AssertTargets(targets, same).Ok? <==> targets.Some? && CountMatching(targets.value, ServiceName, same) == 1
    ensures AssertTargets(targets, same).Ok? ==>
      AssertTargets(targets, same).value in targets.value && same(AssertTargets(targets, same).value.name, ServiceName)
    ensures targets.None? ==> AssertTargets(targets, same) == Err(InvalidOperation(NoTargetsMessage))
    ensures targets.Some? && CountMatching(targets.value, ServiceName, same) == 0 ==>
      AssertTargets(targets, same) == Err(InvalidOperation(MissingServiceMessage))
  {
    if targets.Some? {
      CountMatchingZero(targets.value, ServiceName, same);
    }
  }

  /** A fresh configuration passes Assert, whatever target equality is, as long as it is reflexive. */
  lemma DefaultTargetsPassAssert(same: (string, string) -> bool)
    requires same(ServiceName, ServiceName)
    ensures AssertTargets(Some(DefaultTargets), same) == Ok(MonitorTarget(ServiceName, None))
  {
    var rest := DefaultTargets[1..];
    assert rest == [];
    assert CountMatching(rest, ServiceName, same) == 0;
    assert FirstMatch(DefaultTargets, ServiceName, same) == Some(0);
  }

  /**
   * EnsureMonitorTarget twice in a row: the second call changes nothing and returns what
   * the first returned, so the pair adds at most one target.
   */
  lemma EnsureTargetIdempotent(targets: Option<seq<MonitorTarget>>, name: string, same: (string, string) -> bool)
    requires forall a :: same(a, a)
    ensures var (once, t) := EnsuredTargets(targets, name, same);
            EnsuredTargets(once, name, same) == (once, t)
            && |once.value| <= |targets.GetOr([])| + 1
  {
    var existing := targets.GetOr([]);
    if FirstMatch(existing, name, same).None? {
      var once := existing + [MonitorTarget(name, None)];
      var m := FirstMatch(once, name, same);
      assert same(once[|existing|].name, name);
      assert forall j :: 0 <= j < |existing| ==> once[j] == existing[j];
    }
  }

  /** With target equality an equivalence, EnsureMonitorTarget keeps a configuration that passes Assert passing. */
  lemma EnsureTargetKeepsAssert(targets: Option<seq<MonitorTarget>>, name: string, same: (string, string) -> bool)
    requires IsEquivalence(same)
    requires AssertTargets(targets, same).Ok?
    ensures AssertTargets(EnsuredTargets(targets, name, same).0, same).Ok?
  {
    AssertTargetsIff(targets, same);
    var ts := targets.value;
    if FirstMatch(ts, name, same).None? {
      var added := MonitorTarget(name, None);
      CountMatchingAppend(ts, [added], ServiceName, same);
      assert [added][1..] == [];
      AssertTargetsIff(Some(ts + [added]), same);
    }
  }

  lemma {:induction false} WithoutTargetCount(ts: seq<MonitorTarget>, name: string, same: (string, string) -> bool)
    requires IsEquivalence(same)
    ensures !same(name, ServiceName) ==>
      CountMatching(WithoutTarget(ts, name, same), ServiceName, same) == CountMatching(ts, ServiceName, same)
    ensures same(name, ServiceName) ==> CountMatching(WithoutTarget(ts, name, same), ServiceName, same) == 0
  {
    if ts != [] {
      WithoutTargetCount(ts[1..], name, same);
      var head: seq<MonitorTarget> := if same(ts[0].name, name) then [] else [ts[0]];
      CountMatchingAppend(head, WithoutTarget(ts[1..], name, same), ServiceName, same);
      if head != [] {
        assert head[1..] == [];
      }
    }
  }

  /**
   * RemoveTarget(name) keeps a passing configuration passing when `name` is not Service,
   * and makes Assert report the missing Service target when it is.
   */
  lemma RemoveTargetAndAssert(targets: Option<seq<MonitorTarget>>, name: string, same: (string, string) -> bool)
    requires IsEquivalence(same)
    requires targets.Some?
    ensures !same(name, ServiceName) && AssertTargets(targets, same).Ok? ==>
      AssertTargets(Some(WithoutTarget(targets.value, name, same)), same).Ok?
    ensures same(name, ServiceName) ==>
      AssertTargets(Some(WithoutTarget(targets.value, name, same)), same) == Err(InvalidOperation(MissingServiceMessage))
  {
    WithoutTargetCount(targets.value, name, same);
    AssertTargetsIff(targets, same);
    AssertTargetsIff(Some(WithoutTarget(targets.value, name, same)), same);
  }

  lemma {:induction false} WithoutTargetAppend(a: seq<MonitorTarget>, b: seq<MonitorTarget>, name: string, same: (string, string) -> bool)
    ensures WithoutTarget(a + b, name, same) == WithoutTarget(a, name, same) + WithoutTarget(b, name, same)
  {
    if a == [] {
      assert a + b == b;
    } else {
      assert (a + b)[1..] == a[1..] + b;
      WithoutTargetAppend(a[1..], b, name, same);
    }
  }

  // ---------------------------------------------------------------------------
  // Folders.

  /** FilesOlderThanCriteria, the one kind of FileCriteria; Seconds is a uint. */
  datatype FileCriteria = FilesOlderThan(seconds: nat)

  function CriteriaText(c: FileCriteria): string {
    "Files older than " + NatToString(c.seconds) + " second(s)."
  }

  /** A monitored folder; its Target is kept by name. */
  datatype Folder = Folder(
    enabled: bool,
    path: Option<string>,
    searchPattern: Option<string>,
    includeSubDirectories: bool,
    criteria: Option<FileCriteria>,
    target: string)

  /** new Folder(): enabled, targeted at Service, everything else unset. */
  const NewFolder: Folder := Folder(true, None, None, false, None, ServiceName)

  /** Folder.ToString(): the path, then the search pattern, then the criteria, each only when set. */
  function FolderText(f: Folder): (r: string)
    ensures |r| >= |f.path.GetOr("")| && r[..|f.path.GetOr("")|] == f.path.GetOr("")
    ensures f.searchPattern.None? && f.criteria.None? ==> r == f.path.GetOr("")
    ensures f.criteria.Some? ==>
      r == FolderText(f.(criteria := None)) + " (criteria = " + CriteriaText(f.criteria.value) + ")"
    ensures f.searchPattern.Some? && f.criteria.None? ==>
      r == FolderText(f.(searchPattern := None)) + " (pattern = " + f.searchPattern.value + ")"
    decreases (if f.criteria.Some? then 1 else 0) + (if f.searchPattern.Some? then 1 else 0)
  {
    f.path.GetOr("")
    + (if f.searchPattern.Some? then " (pattern = " + f.searchPattern.value + ")" else "")
    + (if f.criteria.Some? then " (criteria = " + CriteriaText(f.criteria.value) + ")" else "")
  }

  /** The folders GetEnabledFolders keeps: enabled, with a non-blank path and a criteria. */
  predicate IsMonitored(f: Folder) {
    f.enabled && !IsNullOrWhiteSpace(f.path) && f.criteria.Some?
  }

  /** GetEnabledFolders(), for a section whose Enabled flag is `sectionEnabled`. */
  function EnabledFolders(sectionEnabled: bool, folders: seq<Folder>): (r: seq<Folder>)
    ensures |r| <= |folders|
    ensures forall f :: f in r <==> sectionEnabled && f in folders && IsMonitored(f)
  {
    if !sectionEnabled || folders == [] then []
    else (if IsMonitored(folders[0]) then [folders[0]] else []) + EnabledFolders(sectionEnabled, folders[1..])
  }

  /** GetEnabledFolders keeps the order of the folders. */
  lemma {:induction false} EnabledFoldersAppend(sectionEnabled: bool, a: seq<Folder>, b: seq<Folder>)
    ensures EnabledFolders(sectionEnabled, a + b) == EnabledFolders(sectionEnabled, a) + EnabledFolders(sectionEnabled, b)
  {
    if a == [] {
      assert a + b == b;
    } else if sectionEnabled {
      assert (a + b)[1..] == a[1..] + b;
      EnabledFoldersAppend(sectionEnabled, a[1..], b);
    }
  }

  /**
   * Enumerable.Except(xs, excluded): the elements of xs not in `excluded`, each once, in
   * the order of their first occurrence.
   */
  function Distinct(xs: seq<Folder>, excluded: set<Folder>): (r: seq<Folder>)
    ensures |r| <= |xs|
    ensures forall x :: x in r <==> x in xs && x !in excluded
    ensures forall i, j :: 0 <= i < j < |r| ==> r[i] != r[j]
  {
    if xs == [] then []
    else if xs[0] in excluded then Distinct(xs[1..], excluded)
    else [xs[0]] + Distinct(xs[1..], excluded + {xs[0]})
  }

  /** The folders after Remove(folder). */
  function Except(xs: seq<Folder>, folder: Folder): (r: seq<Folder>)
    ensures folder !in r
    ensures forall x :: x in xs && x != folder ==> x in r
    ensures forall x :: x in r ==> x in xs
    ensures forall i, j :: 0 <= i < j < |r| ==> r[i] != r[j]
  {
    Distinct(xs, {folder})
  }

  /** On a list without duplicates Except only drops the excluded folders, keeping the order of the rest. */
  lemma {:induction false} ExceptDropsOnlyFolder(xs: seq<Folder>, excluded: set<Folder>)
    requires forall i, j :: 0 <= i < j < |xs| ==> xs[i] != xs[j]
    ensures Distinct(xs, excluded) == Filtered(xs, excluded)
  {
    if xs != [] {
      if xs[0] in excluded {
        ExceptDropsOnlyFolder(xs[1..], excluded);
      } else {
        FilteredSkips(xs[1..], excluded, xs[0]);
        ExceptDropsOnlyFolder(xs[1..], excluded + {xs[0]});
      }
    }
  }

  /** The elements of xs that are not in `excluded`, in order, duplicates kept. */
  function Filtered(xs: seq<Folder>, excluded: set<Folder>): seq<Folder> {
    if xs == [] then []
    else (if xs[0] in excluded then [] else [xs[0]]) + Filtered(xs[1..], excluded)
  }

  lemma {:induction false} FilteredSkips(xs: seq<Folder>, excluded: set<Folder>, x: Folder)
    requires x !in xs
    ensures Filtered(xs, excluded + {x}) == Filtered(xs, excluded)
  {
    if xs != [] {
      FilteredSkips(xs[1..], excluded, x);
    }
  }

  // ---------------------------------------------------------------------------
  // The configuration objects.

  class MonitorFoldersConfiguration {
    var enabled: bool
    /** Folders; null until the section ensures it (the setter accepts null). */
    var folders: Option<seq<Folder>>

    constructor ()
      ensures enabled && folders == Some([])
    {
      enabled := true;
      folders := Some([]);
    }

    /** The indexer: Folders (made empty when null) at `index`. */
    method Get(index: int) returns (r: Result<Folder>)
      modifies this`folders
      ensures folders == Some(old(folders).GetOr([]))
      ensures r.Ok? <==> 0 <= index < |folders.value|
      ensures r.Ok? ==> r.value == folders.value[index]
      ensures r.Err? ==> r.error == IndexOutOfRange
    {
      if folders.None? {
        folders := Some([]);
      }
      if 0 <= index < |folders.value| {
        r := Ok(folders.value[index]);
      } else {
        r := Err(IndexOutOfRange);
      }
    }

    method GetEnabledFolders() returns (r: seq<Folder>)
      modifies this`folders
      ensures folders == Some(old(folders).GetOr([]))
      ensures r == EnabledFolders(enabled, folders.value)
    {
      if folders.None? {
        folders := Some([]);
      }
      r := EnabledFolders(enabled, folders.value);
    }

    /**
     * Add(folder): the callback sees a new Folder, may change it, and returns its
     * criteria; the folder, with that criteria, goes at the end.
     */
    method Add(configure: Option<Folder -> (Folder, Option<FileCriteria>)>) returns (r: Result<()>)
      modifies this`folders
      ensures configure.None? ==> r == Err(ArgumentNull("folder")) && folders == old(folders)
      ensures configure.Some? ==>
        var (edited, criteria) := configure.value(NewFolder);
        r == Ok(()) && folders == Some(old(folders).GetOr([]) + [edited.(criteria := criteria)])
    {
      if configure.None? {
        return Err(ArgumentNull("folder"));
      }
      var (edited, criteria) := configure.value(NewFolder);
      var local := edited.(criteria := criteria);
      folders := Some(folders.GetOr([]) + [local]);
      r := Ok(());
    }

    method Remove(folder: Option<Folder>) returns (r: Result<()>)
      modifies this`folders
      ensures folder.None? ==> r == Err(ArgumentNull("folder")) && folders == old(folders)
      ensures folder.Some? ==> r == Ok(()) && folders == Some(Except(old(folders).GetOr([]), folder.value))
    {
      if folder.None? {
        return Err(ArgumentNull("folder"));
      }
      folders := Some(Except(folders.GetOr([]), folder.value));
      r := Ok(());
    }

    method Clear()
      modifies this`folders
      ensures folders == Some([])
    {
      folders := Some([]);
    }
  }

  class PingUrlsConfiguration {
    var enabled: bool
    /** MaximumWaitTimeSeconds, a uint. */
    var maximumWaitTimeSeconds: nat
    var urls: Option<seq<string>>
    var useProxy: Option<bool>

    /** Enabled, two minutes to wait, no URLs: a fresh section has nothing to ping. */
    constructor ()
      ensures enabled && maximumWaitTimeSeconds == 120 && urls == None && useProxy == None
      ensures !ShouldExecute()
    {
      enabled := true;
      maximumWaitTimeSeconds := 2 * 60;
      urls := None;
      useProxy := None;
    }

    /** Pinging runs only for an enabled section with at least one URL. */
    predicate ShouldExecute()
      reads this
      ensures ShouldExecute() ==> enabled && urls.Some?
      ensures urls.None? || urls.value == [] ==> !ShouldExecute()
    {
      enabled && urls.Some? && |urls.value| > 0
    }
  }

  class MonitorConfiguration {
    /** LastRun, as ticks; DateTimeOffset's default (MinValue) is 0. */
    var lastRun: int
    var disabled: bool
    var ignoreErrorsWithMessagesContaining: Option<seq<string>>
    var messageGroupingPatterns: Option<seq<string>>
    var targets: Option<seq<MonitorTarget>>
    var subjectPrefix: Option<string>
    const monitorFolders: MonitorFoldersConfiguration
    const pingUrls: PingUrlsConfiguration

    /** One target, Service, without recipients; the "Integration Service" prefix; fresh sections. */
    constructor ()
      ensures targets == Some(DefaultTargets) && subjectPrefix == Some("Integration Service")
      ensures lastRun == 0 && !disabled
      ensures ignoreErrorsWithMessagesContaining == None && messageGroupingPatterns == None
      ensures fresh(monitorFolders) && monitorFolders.enabled && monitorFolders.folders == Some([])
      ensures fresh(pingUrls) && pingUrls.enabled && pingUrls.maximumWaitTimeSeconds == 120 && !pingUrls.ShouldExecute()
    {
      lastRun := 0;
      disabled := false;
      ignoreErrorsWithMessagesContaining := None;
      messageGroupingPatterns := None;
      targets := Some(DefaultTargets);
      subjectPrefix := Some("Integration Service");
      monitorFolders := new MonitorFoldersConfiguration();
      pingUrls := new PingUrlsConfiguration();
    }

    /** EnsureMonitorTarget(target): the target equal to it, added at the end when there is none. */
    method EnsureMonitorTarget(target: Option<string>, same: (string, string) -> bool) returns (r: Result<MonitorTarget>)
      modifies this`targets
      ensures target.None? ==> r == Err(ArgumentNull("target")) && targets == old(targets)
      ensures target.Some? ==>
        var (after, found) := EnsuredTargets(old(targets), target.value, same);
        targets == after && r == Ok(found)
    {
      if target.None? {
        return Err(ArgumentNull("target"));
      }
      var existing := targets.GetOr([]);
      var index := FirstMatch(existing, target.value, same);
      if index.Some? {
        r := Ok(existing[index.value]);
      } else {
        var created := MonitorTarget(target.value, None);
        targets := Some(existing + [created]);
        r := Ok(created);
      }
    }

    method RemoveTarget(target: string, same: (string, string) -> bool)
      modifies this`targets
      ensures old(targets).None? ==> targets == None
      ensures old(targets).Some? ==> targets == Some(WithoutTarget(old(targets).value, target, same))
    {
      if targets.Some? {
        targets := Some(WithoutTarget(targets.value, target, same));
      }
    }

    /** Assert(): the single Service target, or the InvalidOperationException it throws. */
    function Assert(same: (string, string) -> bool): (r: Result<MonitorTarget>)
      reads this
      ensures r.Ok? <==> targets.Some? && CountMatching(targets.value, ServiceName, same) == 1
      ensures r.Ok? ==> r.value in targets.value && same(r.value.name, ServiceName)
      ensures r.Err? ==> r.error.InvalidOperation?
    {
      AssertTargetsIff(targets, same);
      AssertTargets(targets, same)
    }
  }
}
