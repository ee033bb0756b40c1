/**
 * MonitorTask: checks the configuration before a run and, at the end of the run, sends
 * each configured target its entries by e-mail, moves LastRun to the end of the
 * checked period and saves the configuration. The e-mail, log and configuration
 * services are observed through the trace of actions the run produces.
 */
module MonitorTask {
  import opened Wrappers
  import opened Text
  import opened MonitorConfig
  import opened MonitorWork

  /** The execution context's typed bag, holding the one entry MonitorTask keeps there: its configuration. */
  class TaskContext {
    var configuration: Option<MonitorConfiguration>

    constructor ()
      ensures configuration == None
    {
      configuration := None;
    }
  }

  /**
   * IsDisabled: `loaded` is the configuration the configuration service returns. It is
   * stored in the context's bag for Start, and its Disabled flag is the answer.
   */
  method IsDisabled(context: TaskContext, loaded: MonitorConfiguration) returns (r: bool)
    modifies context
    ensures context.configuration == Some(loaded)
    ensures r == loaded.disabled
  {
    context.configuration := Some(loaded);
    r := loaded.disabled;
  }

  /**
   * Start: Assert first; only a configuration with exactly one Service target gets a
   * work item, set up with its ignore texts, targets and grouping patterns.
   */
  function Start(config: MonitorConfiguration, same: (string, string) -> bool): (r: Result<WorkItemSetup>)
    reads config
    ensures r.Ok? <==> config.targets.Some? && CountMatching(config.targets.value, ServiceName, same) == 1
    ensures r.Err? ==> config.Assert(same).Err? && r.error == config.Assert(same).error && r.error.InvalidOperation?
    ensures r.Ok? ==>
      r.value == WorkItemSetup(config.ignoreErrorsWithMessagesContaining, config.targets, config.messageGroupingPatterns)
  {
    AssertTargetsIff(config.targets, same);
    match config.Assert(same)
    case Err(e) => Err(e)
    case Ok(_) => Ok(WorkItemSetup(config.ignoreErrorsWithMessagesContaining, config.targets, config.messageGroupingPatterns))
  }

  /**
   * A task runs IsDisabled first and Start only when it answers false; Start then works
   * on the configuration IsDisabled put in the bag, so it checks the very configuration
   * whose Disabled flag was read.
   */
  method StartUsesBaggedConfiguration(context: TaskContext, loaded: MonitorConfiguration, same: (string, string) -> bool)
    returns (disabled: bool, started: Option<Result<WorkItemSetup>>)
    modifies context
    ensures disabled == loaded.disabled
    ensures disabled ==> started == None
    ensures !disabled ==> started == Some(Start(loaded, same))
  {
    disabled := IsDisabled(context, loaded);
    if disabled {
      return disabled, None;
    }
    var bagged := context.configuration.value;
    started := Some(Start(bagged, same));
  }

  /** The subject after the environment: "prefix: " when the prefix is not blank, then "Monitoring (range)". */
  function PrefixedSubject(prefix: Option<string>, range: CheckRange): (r: string)
    ensures IsNullOrWhiteSpace(prefix) ==> r == "Monitoring (" + range.text + ")"
    ensures !IsNullOrWhiteSpace(prefix) ==> r == prefix.value + ": " + "Monitoring (" + range.text + ")"
  {
    (if !IsNullOrWhiteSpace(prefix) then prefix.value + ": " else "") + "Monitoring (" + range.text + ")"
  }

  /** The e-mail subject: "[environment] " when there is an environment, then PrefixedSubject. */
  function Subject(environment: Option<string>, prefix: Option<string>, range: CheckRange): (r: string)
    ensures var tail := "Monitoring (" + range.text + ")";
            |r| >= |tail| && r[|r| - |tail|..] == tail
    ensures environment.None? ==> r == PrefixedSubject(prefix, range)
    ensures environment.Some? ==> r == "[" + environment.value + "] " + PrefixedSubject(prefix, range)
  {
    var head := if environment.Some? then "[" + environment.value + "] " else "";
    var middle := if !IsNullOrWhiteSpace(prefix) then prefix.value + ": " else "";
    var tail := "Monitoring (" + range.text + ")";
    assert (head + middle + tail)[|head + middle|..] == tail;
    head + PrefixedSubject(prefix, range)
  }

  predicate HasRecipients(t: MonitorTarget) {
    t.recipients.Some? && |t.recipients.value| > 0
  }

  /** A target that gets an e-mail: it has entries and recipients. */
  predicate Deliverable(t: MonitorTarget, wi: MonitorWorkItem) {
    |wi.entriesFor(t.name)| > 0 && HasRecipients(t)
  }

  function NoRecipientsText(t: MonitorTarget): string {
    "No recipients found for target '" + t.name + "'."
  }

  /** The e-mail a deliverable target receives: its own entries, to its own recipients. */
  function EmailFor(t: MonitorTarget, wi: MonitorWorkItem, environment: Option<string>, prefix: Option<string>): Action
    requires HasRecipients(t)
  {
    SendEmail(Subject(environment, prefix, wi.checkRange), wi.entriesFor(t.name), t, t.recipients.value)
  }

  /** SendTo(target): nothing without entries, a warning on Service without recipients, otherwise a log line and the e-mail. */
  function SendTo(t: MonitorTarget, wi: MonitorWorkItem, environment: Option<string>, prefix: Option<string>): seq<Action> {
    var entries := wi.entriesFor(t.name);
    if |entries| == 0 then []
    else if !HasRecipients(t) then [LogWarning(ServiceName, NoRecipientsText(t))]
    else [LogMessage("Sending " + NatToString(|entries|) + " entries to " + t.name + "."), EmailFor(t, wi, environment, prefix)]
  }

  function Router(wi: MonitorWorkItem, environment: Option<string>, prefix: Option<string>): MonitorTarget -> seq<Action> {
    t => SendTo(t, wi, environment, prefix)
  }

  /** The foreach over the targets in End, in declaration order. */
  function RouteAll(ts: seq<MonitorTarget>, wi: MonitorWorkItem, environment: Option<string>, prefix: Option<string>): seq<Action> {
    ForEach(ts, Router(wi, environment, prefix))
  }

  /** The Error End logs when the work item has entries for targets that are not configured. */
  function UnconfiguredLog(unconfigured: Option<seq<string>>): seq<Action> {
    if unconfigured.None? then []
    else [LogError(ServiceName, "Create missing configuration for the following targets: [" + Join(", ", unconfigured.value) + "].")]
  }

  /** Everything End does, in order. */
  function EndTrace(targets: Option<seq<MonitorTarget>>, wi: MonitorWorkItem, environment: Option<string>,
                    prefix: Option<string>, taskName: string): seq<Action> {
    UnconfiguredLog(wi.unconfiguredTargets) + RouteAll(targets.GetOr([]), wi, environment, prefix) + [SaveConfiguration(taskName)]
  }

  /**
   * End: the routing trace for the configuration's targets, then LastRun set to the
   * upper bound of the check range and the configuration saved.
   */
  method End(config: MonitorConfiguration, wi: MonitorWorkItem, environment: Option<string>, taskName: string)
    returns (trace: seq<Action>)
    modifies config`lastRun
    ensures config.lastRun == wi.checkRange.upperBound
    ensures trace == EndTrace(config.targets, wi, environment, config.subjectPrefix, taskName)
  {
    trace := UnconfiguredLog(wi.unconfiguredTargets);
    var ts := config.targets.GetOr([]);
    var i := 0;
    while i < |ts|
      invariant 0 <= i <= |ts|
      invariant trace == UnconfiguredLog(wi.unconfiguredTargets) + RouteAll(ts[..i], wi, environment, config.subjectPrefix)
    {
      assert ts[..i + 1][..i] == ts[..i];
      trace := trace + SendTo(ts[i], wi, environment, config.subjectPrefix);
      i := i + 1;
    }
    assert ts[..i] == ts;
    config.lastRun := wi.checkRange.upperBound;
    trace := trace + [SaveConfiguration(taskName)];
  }

  // ---------------------------------------------------------------------------
  // What the routing promises.

  predicate IsEmail(a: Action) { a.SendEmail? }
  predicate IsSave(a: Action) { a.SaveConfiguration? }
  predicate IsError(a: Action) { a.LogError? }

  /** How many actions satisfy p. */
  function Count(actions: seq<Action>, p: Action -> bool): nat {
    if actions == [] then 0 else (if p(actions[0]) then 1 else 0) + Count(actions[1..], p)
  }

  /** How many targets get an e-mail. */
  function CountDeliverable(ts: seq<MonitorTarget>, wi: MonitorWorkItem): nat
    decreases |ts|
  {
    if ts == [] then 0 else CountDeliverable(ts[..|ts| - 1], wi) + (if Deliverable(ts[|ts| - 1], wi) then 1 else 0)
  }

  lemma {:induction false} CountAppend(a: seq<Action>, b: seq<Action>, p: Action -> bool)
    ensures Count(a + b, p) == Count(a, p) + Count(b, p)
  {
    if a == [] {
      assert a + b == b;
    } else {
      assert (a + b)[1..] == a[1..] + b;
      CountAppend(a[1..], b, p);
    }
  }

  /** The targets are visited in declaration order: routing a concatenation routes each part in turn. */
  lemma RouteAllAppend(a: seq<MonitorTarget>, b: seq<MonitorTarget>, wi: MonitorWorkItem,
                       environment: Option<string>, prefix: Option<string>)
    ensures RouteAll(a + b, wi, environment, prefix) == RouteAll(a, wi, environment, prefix) + RouteAll(b, wi, environment, prefix)
  {
    ForEachAppend(a, b, Router(wi, environment, prefix));
  }

  /**
   * Routing one target: no entries, no action; entries but no recipients, a single
   * Warning on Service and no e-mail; otherwise exactly one e-mail, carrying that
   * target's entries to that target's recipients.
   */
  lemma SendToOutcome(t: MonitorTarget, wi: MonitorWorkItem, environment: Option<string>, prefix: Option<string>)
    ensures |wi.entriesFor(t.name)| == 0 ==> SendTo(t, wi, environment, prefix) == []
    ensures |wi.entriesFor(t.name)| > 0 && !HasRecipients(t) ==>
      SendTo(t, wi, environment, prefix) == [LogWarning(ServiceName, NoRecipientsText(t))]
    ensures Deliverable(t, wi) ==>
      var r := SendTo(t, wi, environment, prefix);
      Count(r, IsEmail) == 1 && r[|r| - 1] == EmailFor(t, wi, environment, prefix)
      && r[|r| - 1].entries == wi.entriesFor(t.name) && r[|r| - 1].recipients == t.recipients.value
    ensures !Deliverable(t, wi) ==> Count(SendTo(t, wi, environment, prefix), IsEmail) == 0
  {
    var r := SendTo(t, wi, environment, prefix);
    if Deliverable(t, wi) {
      assert r[1..][1..] == [];
      assert Count(r[1..], IsEmail) == 1;
    } else if |wi.entriesFor(t.name)| > 0 {
      assert r[1..] == [];
    }
  }

  /** One e-mail per target that has entries and recipients, and no other. */
  lemma {:induction false} RouteAllEmailCount(ts: seq<MonitorTarget>, wi: MonitorWorkItem, environment: Option<string>, prefix: Option<string>)
    ensures Count(RouteAll(ts, wi, environment, prefix), IsEmail) == CountDeliverable(ts, wi)
    decreases |ts|
  {
    if ts != [] {
      var init := ts[..|ts| - 1];
      RouteAllEmailCount(init, wi, environment, prefix);
      CountAppend(RouteAll(init, wi, environment, prefix), SendTo(ts[|ts| - 1], wi, environment, prefix), IsEmail);
      SendToOutcome(ts[|ts| - 1], wi, environment, prefix);
    }
  }

  /**
   * Every e-mail goes to a configured target that has entries and recipients, and
   * carries exactly that target's entries; every such target gets its e-mail.
   */
  lemma {:induction false} RouteAllEmails(ts: seq<MonitorTarget>, wi: MonitorWorkItem, environment: Option<string>, prefix: Option<string>)
    ensures forall a :: a in RouteAll(ts, wi, environment, prefix) && a.SendEmail? ==>
      a.to in ts && Deliverable(a.to, wi) && a == EmailFor(a.to, wi, environment, prefix)
    ensures forall t :: t in ts && Deliverable(t, wi) ==> EmailFor(t, wi, environment, prefix) in RouteAll(ts, wi, environment, prefix)
    decreases |ts|
  {
    if ts != [] {
      var init := ts[..|ts| - 1];
      var last := ts[|ts| - 1];
      RouteAllEmails(init, wi, environment, prefix);
      assert ts == init + [last];
      forall t | t in ts && Deliverable(t, wi)
        ensures EmailFor(t, wi, environment, prefix) in RouteAll(ts, wi, environment, prefix)
      {
        if t != last {
          assert t in init;
        } else {
          SendToOutcome(t, wi, environment, prefix);
        }
      }
    }
  }

  /** Routing only logs messages and warnings on Service and sends e-mails: it never logs an Error or saves. */
  lemma {:induction false} RouteAllKinds(ts: seq<MonitorTarget>, wi: MonitorWorkItem, environment: Option<string>, prefix: Option<string>)
    ensures forall a :: a in RouteAll(ts, wi, environment, prefix) ==>
      a.LogMessage? || a.SendEmail? || (a.LogWarning? && a.target == ServiceName)
    decreases |ts|
  {
    if ts != [] {
      RouteAllKinds(ts[..|ts| - 1], wi, environment, prefix);
    }
  }

  /**
   * End logs one Error on Service, listing the unconfigured targets joined by ", ",
   * exactly when the work item reports some; it saves the configuration exactly once,
   * as its last action, whatever was sent; and it sends one e-mail per deliverable
   * target (none when Targets is null).
   */
  lemma EndTraceShape(targets: Option<seq<MonitorTarget>>, wi: MonitorWorkItem, environment: Option<string>,
                      prefix: Option<string>, taskName: string)
    ensures var r := EndTrace(targets, wi, environment, prefix, taskName);
            |r| > 0 && r[|r| - 1] == SaveConfiguration(taskName)
            && Count(r, IsSave) == 1
            && Count(r, IsError) == (if wi.unconfiguredTargets.Some? then 1 else 0)
            && (wi.unconfiguredTargets.Some? ==> r[0] == LogError(ServiceName,
                  "Create missing configuration for the following targets: [" + Join(", ", wi.unconfiguredTargets.value) + "]."))
            && Count(r, IsEmail) == CountDeliverable(targets.GetOr([]), wi)
            && (targets.None? ==> Count(r, IsEmail) == 0)
  {
    var u := UnconfiguredLog(wi.unconfiguredTargets);
    var m := RouteAll(targets.GetOr([]), wi, environment, prefix);
    var s: seq<Action> := [SaveConfiguration(taskName)];
    RouteAllKinds(targets.GetOr([]), wi, environment, prefix);
    RouteAllEmailCount(targets.GetOr([]), wi, environment, prefix);
    NoneCounted(m, IsSave);
    NoneCounted(m, IsError);
    CountAppend(u, m, IsSave);
    CountAppend(u + m, s, IsSave);
    CountAppend(u, m, IsError);
    CountAppend(u + m, s, IsError);
    CountAppend(u, m, IsEmail);
    CountAppend(u + m, s, IsEmail);
    assert s[1..] == [];
    if u != [] {
      assert u[1..] == [];
    }
  }

  lemma {:induction false} NoneCounted(actions: seq<Action>, p: Action -> bool)
    requires forall a :: a in actions ==> !p(a)
    ensures Count(actions, p) == 0
  {
    if actions != [] {
      NoneCounted(actions[1..], p);
    }
  }
}
