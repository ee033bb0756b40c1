/**
 * MonitorFoldersStep: for each enabled folder, reports the files that match its
 * criteria as one entry for the folder's target. Which files match (the directory
 * listing and the age test) is an input: `filesFor` gives them, in enumeration order.
 */
module MonitorFoldersStep {
  import opened Wrappers
  import opened Text
  import opened MonitorConfig
  import opened MonitorWork

  datatype Execution = Execute | StepOver

  /**
   * ContinueWith: the step is skipped exactly when no folder is monitored. Asking for the
   * enabled folders replaces a null folder list by an empty one.
   */
  method ContinueWith(section: MonitorFoldersConfiguration) returns (r: Execution)
    modifies section`folders
    ensures section.folders == Some(old(section.folders).GetOr([]))
    ensures r == StepOver <==> forall f :: f in section.folders.value ==> !(section.enabled && IsMonitored(f))
  {
    var enabled := section.GetEnabledFolders();
    if |enabled| == 0 {
      r := StepOver;
    } else {
      assert enabled[0] in enabled;
      r := Execution.Execute;
    }
  }

  /** At most this many files are listed in an entry. */
  const Limit: nat := 10

  /** The listed lines: the first Limit files, each as " - file", in match order. */
  function Listed(files: seq<string>): (r: seq<string>)
    ensures |r| == if |files| < Limit then |files| else Limit
    ensures forall i :: 0 <= i < |r| ==> r[i] == " - " + files[i]
  {
    var n := if |files| < Limit then |files| else Limit;
    seq(n, i requires 0 <= i < n => " - " + files[i])
  }

  /** The first line of an entry: the number of all matching files, and the criteria. */
  function Header(count: nat, c: FileCriteria): string {
    NatToString(count) + " file(s) matching criteria: '" + CriteriaText(c) + "'."
  }

  /** The text of the entry for a folder whose criteria is c and whose matching files are `files`. */
  function FolderMessage(files: seq<string>, c: FileCriteria): string {
    Header(|files|, c) + NewLine
    + Join(NewLine, Listed(files)) + NewLine
    + (if |files| > Limit then "..." + NewLine else "")
  }

  lemma {:induction false} JoinEndsWithLast(sep: string, parts: seq<string>)
    requires |parts| > 0
    ensures var j := Join(sep, parts);
            var last := parts[|parts| - 1];
            |j| >= |last| && j[|j| - |last|..] == last
  {
    if |parts| > 1 {
      JoinEndsWithLast(sep, parts[1..]);
    }
  }

  /**
   * The entry text starts with the header counting every matching file; it ends with a
   * "..." line when more than Limit files matched, and otherwise with the last file.
   */
  lemma FolderMessageShape(files: seq<string>, c: FileCriteria)
    requires |files| > 0
    ensures var m := FolderMessage(files, c);
            var head := Header(|files|, c) + NewLine;
            |m| >= |head| && m[..|head|] == head
    ensures |files| > Limit ==>
      var m := FolderMessage(files, c);
      var tail := NewLine + "..." + NewLine;
      |m| >= |tail| && m[|m| - |tail|..] == tail
    ensures |files| <= Limit ==>
      var m := FolderMessage(files, c);
      var tail := " - " + files[|files| - 1] + NewLine;
      |m| >= |tail| && m[|m| - |tail|..] == tail
  {
    var listed := Listed(files);
    var body := Join(NewLine, listed);
    JoinEndsWithLast(NewLine, listed);
    var m := FolderMessage(files, c);
    var head := Header(|files|, c) + NewLine;
    assert m == head + (body + NewLine + (if |files| > Limit then "..." + NewLine else ""));
    if |files| <= Limit {
      var last := listed[|listed| - 1];
      assert last == " - " + files[|files| - 1];
      assert m == (head + body[..|body| - |last|]) + (last + NewLine);
    }
  }

  /** The log line for a folder with matching files. */
  function MatchedLog(f: Folder, files: seq<string>): Action {
    LogMessage(NatToString(|files|) + " file(s) matched by '" + FolderText(f) + "'.")
  }

  function MatchedLogs(filesFor: Folder -> seq<string>): Folder -> seq<Action> {
    f => if |filesFor(f)| > 0 then [MatchedLog(f, filesFor(f))] else []
  }

  /**
   * The first log line of Execute: every monitored folder, one " - folder" line each.
   * The break after the heading is inside a verbatim literal, so it is the source file's
   * own line ending, a line feed; the folders are joined by Environment.NewLine.
   */
  function MonitoredLog(folders: seq<Folder>): Action {
    LogMessage("Folder(s) monitored:" + "\n" + Join(NewLine, seq(|folders|, i requires 0 <= i < |folders| => " - " + FolderText(folders[i]))))
  }

  /** The entry added for a folder with matching files, for the folder's target. */
  function EntryFor(f: Folder, files: seq<string>, now: int, stepName: string): MonitorEntry
    requires f.criteria.Some?
  {
    MonitorEntry(now, stepName, FolderMessage(files, f.criteria.value), f.target)
  }

  /** The entries Execute adds, folder by folder. */
  function Entries(folders: seq<Folder>, filesFor: Folder -> seq<string>, now: int, stepName: string): seq<MonitorEntry>
    requires forall f :: f in folders ==> f.criteria.Some?
    decreases |folders|
  {
    if folders == [] then []
    else
      var last := folders[|folders| - 1];
      Entries(folders[..|folders| - 1], filesFor, now, stepName) + EntriesOf(last, filesFor, now, stepName)
  }

  /** How many folders have matching files. */
  function CountWithFiles(folders: seq<Folder>, filesFor: Folder -> seq<string>): nat
    decreases |folders|
  {
    if folders == [] then 0
    else CountWithFiles(folders[..|folders| - 1], filesFor) + (if |filesFor(folders[|folders| - 1])| > 0 then 1 else 0)
  }

  /**
   * One entry per folder with matching files, none for the others: each entry is for
   * its folder's target and carries that folder's message.
   */
  lemma {:induction false} EntriesPerFolder(folders: seq<Folder>, filesFor: Folder -> seq<string>, now: int, stepName: string)
    requires forall f :: f in folders ==> f.criteria.Some?
    ensures |Entries(folders, filesFor, now, stepName)| == CountWithFiles(folders, filesFor) <= |folders|
    ensures forall e :: e in Entries(folders, filesFor, now, stepName) ==>
      exists f :: f in folders && |filesFor(f)| > 0 && e == EntryFor(f, filesFor(f), now, stepName)
    ensures forall f :: f in folders && |filesFor(f)| > 0 ==>
      EntryFor(f, filesFor(f), now, stepName) in Entries(folders, filesFor, now, stepName)
    decreases |folders|
  {
    if folders != [] {
      var init := folders[..|folders| - 1];
      var last := folders[|folders| - 1];
      assert folders == init + [last];
      EntriesPerFolder(init, filesFor, now, stepName);
      var es := Entries(folders, filesFor, now, stepName);
      forall e | e in es
        ensures exists f :: f in folders && |filesFor(f)| > 0 && e == EntryFor(f, filesFor(f), now, stepName)
      {
        if e !in Entries(init, filesFor, now, stepName) {
          assert e in EntriesOf(last, filesFor, now, stepName);
        }
      }
    }
  }

  lemma EntriesStep(folders: seq<Folder>, i: nat, filesFor: Folder -> seq<string>, now: int, stepName: string)
    requires i < |folders|
    requires forall f :: f in folders ==> f.criteria.Some?
    ensures forall f :: f in folders[..i] ==> f.criteria.Some?
    ensures Entries(folders[..i + 1], filesFor, now, stepName)
      == Entries(folders[..i], filesFor, now, stepName) + EntriesOf(folders[i], filesFor, now, stepName)
  {
    assert folders[..i + 1][..i] == folders[..i];
    assert forall f :: f in folders[..i + 1] ==> f in folders;
  }

  /** The entries added for one folder: one when it has matching files. */
  function EntriesOf(f: Folder, filesFor: Folder -> seq<string>, now: int, stepName: string): seq<MonitorEntry>
    requires f.criteria.Some?
  {
    if |filesFor(f)| > 0 then [EntryFor(f, filesFor(f), now, stepName)] else []
  }

  /** The foreach of Execute over the enabled folders: the per-folder log lines and entries. */
  method ScanFolders(folders: seq<Folder>, filesFor: Folder -> seq<string>, now: int, stepName: string)
    returns (matched: seq<Action>, added: seq<MonitorEntry>)
    requires forall f :: f in folders ==> f.criteria.Some?
    ensures matched == ForEach(folders, MatchedLogs(filesFor))
    ensures added == Entries(folders, filesFor, now, stepName)
  {
    var logs := MatchedLogs(filesFor);
    matched := [];
    added := [];
    var i := 0;
    while i < |folders|
      invariant 0 <= i <= |folders|
      invariant matched == ForEach(folders[..i], logs)
      invariant forall f :: f in folders[..i] ==> f.criteria.Some?
      invariant added == Entries(folders[..i], filesFor, now, stepName)
    {
      var folder := folders[i];
      EntriesStep(folders, i, filesFor, now, stepName);
      ForEachStep(folders, i, logs);
      matched := matched + logs(folder);
      added := added + EntriesOf(folder, filesFor, now, stepName);
      i := i + 1;
    }
    assert folders[..i] == folders;
  }

  /**
   * Execute: logs the monitored folders, then, folder by folder in the order of
   * GetEnabledFolders, logs and adds an entry for each folder with matching files.
   */
  method Execute(section: MonitorFoldersConfiguration, filesFor: Folder -> seq<string>, now: int, stepName: string)
    returns (trace: seq<Action>, added: seq<MonitorEntry>)
    modifies section`folders
    ensures section.folders == Some(old(section.folders).GetOr([]))
    ensures var folders := EnabledFolders(section.enabled, section.folders.value);
            trace == [MonitoredLog(folders)] + ForEach(folders, MatchedLogs(filesFor))
            && added == Entries(folders, filesFor, now, stepName)
  {
    var folders := section.GetEnabledFolders();
    var matched;
    matched, added := ScanFolders(folders, filesFor, now, stepName);
    trace := [MonitoredLog(folders)] + matched;
  }
}
