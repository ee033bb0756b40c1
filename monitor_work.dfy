/**
 * What the monitoring task and its steps share: the entries they collect, the work item
 * they read them from, and the effects they have (log lines, e-mails, saving the
 * configuration), recorded in order as a trace of actions. MonitorWorkItem's own
 * filtering, grouping and redirecting are not part of this model: the entries it hands
 * out per target are an input.
 */
module MonitorWork {
  import opened Wrappers
  import opened MonitorConfig

  /** A collected entry: when, from which step, the text, and the target it is for. */
  datatype MonitorEntry = MonitorEntry(time: int, source: string, message: string, target: string)

  /** CheckRange: the period the run covers, with the text its ToString() prints. */
  datatype CheckRange = CheckRange(lowerBound: int, upperBound: int, text: string)

  /**
   * The work item as End sees it: the check range, GetEntries per target name, and the
   * names HasEntriesForUnconfiguredTargets reports (None when it returns false).
   */
  datatype MonitorWorkItem = MonitorWorkItem(
    checkRange: CheckRange,
    entriesFor: string -> seq<MonitorEntry>,
    unconfiguredTargets: Option<seq<string>>)

  /** The settings Start hands to the new work item. */
  datatype WorkItemSetup = WorkItemSetup(
    ignoreErrorsWithMessagesContaining: Option<seq<string>>,
    redirectTargets: Option<seq<MonitorTarget>>,
    messageGroupingPatterns: Option<seq<string>>)

  /** One observable effect. */
  datatype Action =
    | LogMessage(text: string)
    | LogWarning(target: string, text: string)
    | LogError(target: string, text: string)
    | SendEmail(subject: string, entries: seq<MonitorEntry>, to: MonitorTarget, recipients: seq<string>)
    | SaveConfiguration(taskName: string)

  /** The actions of a loop that performs f(x) for each x of xs, in order. */
  function ForEach<T>(xs: seq<T>, f: T -> seq<Action>): seq<Action>
    decreases |xs|
  {
    if xs == [] then [] else ForEach(xs[..|xs| - 1], f) + f(xs[|xs| - 1])
  }

  /** A loop over a concatenation performs the loop over each part in turn. */
  lemma {:induction false} ForEachAppend<T>(a: seq<T>, b: seq<T>, f: T -> seq<Action>)
    ensures ForEach(a + b, f) == ForEach(a, f) + ForEach(b, f)
    decreases |b|
  {
    if b == [] {
      assert a + b == a;
    } else {
      var ab := a + b;
      assert ab[..|ab| - 1] == a + b[..|b| - 1];
      assert ab[|ab| - 1] == b[|b| - 1];
      ForEachAppend(a, b[..|b| - 1], f);
    }
  }

  lemma ForEachStep<T>(xs: seq<T>, i: nat, f: T -> seq<Action>)
    requires i < |xs|
    ensures ForEach(xs[..i + 1], f) == ForEach(xs[..i], f) + f(xs[i])
  {
    assert xs[..i + 1][..i] == xs[..i];
  }
}
