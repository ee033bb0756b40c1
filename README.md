# Integration service core, modelled in Dafny

This project models the core of an integration-service framework written in C#:

- **CSV rows.** A row of cells with optional named columns, the quoting rule used when a row is written out, a builder that numbers rows and can put the header names in front as row 1, a mapper that fills a row by column name, and the settings object for reading CSV files.
- **FTP path navigation.** `FtpClient` keeps a stack of path frames. `NavigateTo` starts a frame, `NavigateDown` descends within the top frame, `NavigateBack` undoes one step, and `CurrentPath` renders the top frame.
- **Monitoring.**
  - `MonitorConfiguration`: its targets, the `Assert` check, monitored folders and ping URLs.
  - `MonitorTask`: the disabled check, `Start`, and `End`, which routes each target's entries to an e-mail, moves `LastRun` forward and saves.
  - `MonitorFoldersStep`: reports folders with matching files.
- **Utilities.**
  - `TaskConfiguration`: a task type's ordered step list, with equality by task type.
  - `ExceptionExtensions`: the texts built from an exception's chain of inner exceptions.
  - `InMemoryRuntimeSettings`: case-insensitive named settings.
  - `Repeat`: a count that enumerates 1..n.

**How it is modelled**

- One module per source file, plus `Wrappers` and `Text`.
  - `Wrappers` holds `Option`, `Result` and the .NET exceptions as `Error` values.
  - `Text` holds the string primitives of the base library the code relies on: `Environment.NewLine` fixed to `"\r\n"`, `char.IsWhiteSpace`, `Trim`, `string.Join`, ordinal case-insensitive comparison, and number formatting.
- `null` is `None` wherever the source checks for it. A thrown exception is an `Err` result carrying the exception type and message.
- Objects whose fields the source updates are classes with `modifies` clauses: `CsvRow` (its cells are an array), `CsvRowBuilder`, `CsvRowMapper`, `CsvConfiguration`, `FtpClient`, the configuration classes, `TaskConfiguration` and `InMemoryRuntimeSettings`. Values are datatypes.
- The loops of the source are methods with loop invariants, proved against specification functions:
  - `End` over the targets;
  - `Execute` over the folders;
  - the two loops down an exception chain, and the Data loop;
  - the mapper's `Map` calls.
- What the monitoring code does to the outside world is recorded as a trace of `Action` values, in order: log lines, warnings, errors, e-mails and saving the configuration.
- Inputs the source takes from code that is not modelled are parameters:
  - the entries a `MonitorWorkItem` holds per target, and the unconfigured targets it reports;
  - target equality, as a relation `same` on target names;
  - the files matching each folder;
  - the clock, as one `now` per `Execute` (see "## Left out");
  - the runtime environment.

**Behaviours of the source the model keeps as written**

- `Escape` wraps every cell in quotes when the row's delimiter is empty, because every string contains the empty string (`CsvEscaping.Escape`).
- After `ReturnHeaderAsRow`, `Add` numbers data rows as if the header row were already present. The rows added before it are numbered from 1 (`CsvRows.CsvRowBuilder.NextLineNumber`).
- `NavigateTo("/")` passes the blank check and pushes an empty segment. `NavigateDown("/")` with no frames throws: the trimmed, empty name is checked again by `NavigateTo` (`FtpNavigation.NavigateToSlashPushesEmptySegment`, `FtpNavigation.NavigateDownSlashFromRootThrows`).
- `Repeat` casts its `uint` count to `int` without a check. A count of 2^31 or more becomes negative: enumerating it throws, and `ToString` prints a negative number (`Repeat.LargeCountsWrap`).
- The break after "Folder(s) monitored:" in `MonitorFoldersStep.Execute` is written inside a verbatim string, so it is the source file's own line ending. The file uses line feeds, so the model writes "\n" there, and `Environment.NewLine` between the folders.
- `Assert` uses `SingleOrDefault`, so two targets equal to Service also make it throw, with the LINQ message.

## Model

| member | source | states |
|---|---|---|
| CsvEscaping.EscapeBodyIsDoubledNormalized | src/Integration/Infrastructure/Parsing/CsvRow.cs:90-97 | The four replacements of Escape turn each “ ” „ into a straight quote, then double every straight quote |
| CsvEscaping.EscapeWrapsIff | src/Integration/Infrastructure/Parsing/CsvRow.cs:99-102 | The escaped cell starts with a quote exactly when the replaced text contains the delimiter (ignoring case), a quote or a line break |
| CsvEscaping.EscapeLeavesPlainText | src/Integration/Infrastructure/Parsing/CsvRow.cs:88-105 | A cell with no quote of either kind, no line break and no occurrence of the delimiter comes back unchanged |
| CsvEscaping.QuoteForcesWrapping | src/Integration/Infrastructure/Parsing/CsvRow.cs:88-105 | A cell holding any straight or typographic quote is always enclosed in quotes |
| CsvEscaping.EscapeRoundTrip | src/Integration/Infrastructure/Parsing/CsvRow.cs:88-105 | Removing the enclosing quotes and collapsing each "" gives back the input, with its typographic quotes straightened |
| CsvEscaping.CollapsedDoubled | src/Integration/Infrastructure/Parsing/CsvRow.cs:93 | Collapsing "" undoes doubling the quotes |
| CsvEscaping.Normalized | src/Integration/Infrastructure/Parsing/CsvRow.cs:94-96 | Keeps the length; each typographic double quote becomes a straight one and every other character is kept |
| CsvRows.HeaderIndex | src/Integration/Infrastructure/Parsing/CsvRow.cs:75-80 | A found index is a column whose name equals the given name ignoring case; None means no column has that name |
| CsvRows.HeaderIndexFindsColumn | src/Integration/Infrastructure/Parsing/CsvRow.cs:237-239 | With names distinct ignoring case, any spelling of a header's name finds that header's own column |
| CsvRows.ArityError | src/Integration/Infrastructure/Parsing/CsvRow.cs:21-23 | An ArgumentException exactly when a non-empty header list is given and the cell count differs from it |
| CsvRows.EscapeCells | src/Integration/Infrastructure/Parsing/CsvRow.cs:65-68 | Enumerating a row yields one escaped cell per cell, in order |
| CsvRows.PlainCellsEscapeToThemselves | src/Integration/Infrastructure/Parsing/CsvRow.cs:83-86 | A row of plain cells is written as the cells joined by the delimiter, nothing added |
| CsvRows.CsvRow.constructor | src/Integration/Infrastructure/Parsing/CsvRow.cs:17-28 | The row holds exactly the given cells, headers, delimiter and line number |
| CsvRows.CsvRow.New | src/Integration/Infrastructure/Parsing/CsvRow.cs:17-28 | Null data gives ArgumentNullException "data"; an arity mismatch gives the arity error; otherwise a fresh row with those cells, and "" for a null delimiter |
| CsvRows.CsvRow.Get | src/Integration/Infrastructure/Parsing/CsvRow.cs:38-44 | Succeeds iff 0 <= index < Length and returns that cell; otherwise IndexOutOfRangeException |
| CsvRows.CsvRow.Set | src/Integration/Infrastructure/Parsing/CsvRow.cs:45-51 | Succeeds iff the index is in range; then only that cell changes, to the value; otherwise nothing changes |
| CsvRows.CsvRow.GetIndexByName | src/Integration/Infrastructure/Parsing/CsvRow.cs:70-81 | InvalidOperationException without headers; ArgumentException iff no header has the name ignoring case; otherwise the index of a header with that name |
| CsvRows.CsvRow.GetByName | src/Integration/Infrastructure/Parsing/CsvRow.cs:32 | The cell at the named column, or GetIndexByName's exception |
| CsvRows.CsvRow.SetByName | src/Integration/Infrastructure/Parsing/CsvRow.cs:33 | Writes the named column's cell and no other, or throws GetIndexByName's exception and changes nothing |
| CsvRows.HeaderMap | src/Integration/Infrastructure/Parsing/CsvRow.cs:235-240 | No header map for a null or empty list; an error iff two names are equal ignoring case; otherwise the names in column order |
| CsvRows.ApplyCallsLastWins | src/Integration/Infrastructure/Parsing/CsvRow.cs:394-402 | Map calls fail iff some call names no header; otherwise each column holds the value of the last call naming it, and a column no call names keeps its cell |
| CsvRows.CsvRowMapper.constructor | src/Integration/Infrastructure/Parsing/CsvRow.cs:383-392 | Every column starts as the empty string |
| CsvRows.CsvRowMapper.Map | src/Integration/Infrastructure/Parsing/CsvRow.cs:394-402 | KeyNotFoundException and no change for an unknown name; otherwise only that column takes the value |
| CsvRows.CsvRowMapper.ToData | src/Integration/Infrastructure/Parsing/CsvRow.cs:404-407 | The values in header-index order |
| CsvRows.CsvRowBuilder.constructor | src/Integration/Infrastructure/Parsing/CsvRow.cs:217-222 | No headers, no rows, delimiter ";", no header row requested or inserted |
| CsvRows.CsvRowBuilder.BeginRows | src/Integration/Infrastructure/Parsing/CsvRow.cs:145-148 | A fresh builder whose headers are HeaderMap of the names, or HeaderMap's error |
| CsvRows.CsvRowBuilder.Headers | src/Integration/Infrastructure/Parsing/CsvRow.cs:231-243 | InvalidOperationException once headers are set; otherwise the headers become HeaderMap of the names, which may be none |
| CsvRows.CsvRowBuilder.Add | src/Integration/Infrastructure/Parsing/CsvRow.cs:245-254 | Null data throws; an arity mismatch throws and adds nothing; otherwise one fresh row with the cells is appended, numbered rows so far + 1, plus 1 after ReturnHeaderAsRow; a success raises DataRowCount by one, a failure leaves it |
| CsvRows.CsvRowBuilder.AddUsingMapper | src/Integration/Infrastructure/Parsing/CsvRow.cs:256-268 | A null mapper or no headers throws; a Map call with an unknown name throws and adds nothing; otherwise one row holding MapRow of the calls, with the builder's headers and delimiter, is appended, raising DataRowCount by one |
| CsvRows.CsvRowBuilder.RunMapper | src/Integration/Infrastructure/Parsing/CsvRow.cs:261-265 | Running the Map calls on a fresh mapper, then ToData, gives MapRow of the calls |
| CsvRows.CsvRowBuilder.ReturnHeaderAsRow | src/Integration/Infrastructure/Parsing/CsvRow.cs:313-318 | The header row is requested; the builder stays valid |
| CsvRows.CsvRowBuilder.ChangeDelimiter | src/Integration/Infrastructure/Parsing/CsvRow.cs:320-325 | Later rows use the delimiter, "" for null |
| CsvRows.CsvRowBuilder.ToRows | src/Integration/Infrastructure/Parsing/CsvRow.cs:327-336 | The first call after ReturnHeaderAsRow with headers puts a row of the header names, numbered 1, in front; otherwise the rows are unchanged; DataRowCount never changes |
| CsvRows.CsvRowBuilder.ToText | src/Integration/Infrastructure/Parsing/CsvRow.cs:338-341 | ToRows, then each row's text joined by line breaks: the text is of the rows as they were, with the header row in front exactly when ToRows would insert it; DataRowCount never changes |
| CsvRows.ToRowsTwice | src/Integration/Infrastructure/Parsing/CsvRow.cs:327-336 | Two ToRows calls in a row return the same rows, so the header row is inserted at most once |
| CsvConfig.AcceptedDelimiters | src/Integration/Infrastructure/Parsing/CsvConfiguration.cs:40-47 | ChangeDelimiter's guard accepts exactly the tab and the non-blank strings |
| CsvConfig.CsvConfiguration.constructor | src/Integration/Infrastructure/Parsing/CsvConfiguration.cs:15-22 | First line is a header, UTF-8, delimiter ";", HasFieldsEnclosedInQuotes unset |
| CsvConfig.CsvConfiguration.NoHeaders | src/Integration/Infrastructure/Parsing/CsvConfiguration.cs:24-29 | FirstLineIsHeader becomes false and nothing else changes; returns the same instance |
| CsvConfig.CsvConfiguration.ChangeEncoding | src/Integration/Infrastructure/Parsing/CsvConfiguration.cs:31-38 | Null throws ArgumentNullException and changes nothing; otherwise the encoding is set and the same instance returned |
| CsvConfig.CsvConfiguration.ChangeDelimiter | src/Integration/Infrastructure/Parsing/CsvConfiguration.cs:40-47 | A rejected delimiter throws ArgumentException and leaves the delimiter unchanged; otherwise the delimiter is set; the other settings never change |
| CsvConfig.CsvConfiguration.ChangeHasFieldsEnclosedInQuotes | src/Integration/Infrastructure/Parsing/CsvConfiguration.cs:50-55 | The flag becomes the argument, nothing else changes |
| CsvConfig.CsvConfiguration.DisableHasFieldsEnclosedInQuotes | src/Integration/Infrastructure/Parsing/CsvConfiguration.cs:57-62 | The flag becomes false, nothing else changes |
| FtpNavigation.RenderPath | src/Integration/Infrastructure/Remote/Ftp/FtpClient.cs:63 | The path always starts with "/" and is "/" with no frames |
| FtpNavigation.Segment | src/Integration/Infrastructure/Remote/Ftp/FtpClient.cs:23-32 | Rejects exactly the null or blank names; otherwise the name with its leading '/' removed |
| FtpNavigation.PushFrame | src/Integration/Infrastructure/Remote/Ftp/FtpClient.cs:29 | Keeps the invariant that no frame is empty |
| FtpNavigation.PushDown | src/Integration/Infrastructure/Remote/Ftp/FtpClient.cs:58 | Keeps the invariant that no frame is empty |
| FtpNavigation.Back | src/Integration/Infrastructure/Remote/Ftp/FtpClient.cs:34-47 | Keeps the invariant that no frame is empty |
| FtpNavigation.BackUndoesPushFrame | src/Integration/Infrastructure/Remote/Ftp/FtpClient.cs:23-47 | NavigateBack right after NavigateTo restores the earlier stack |
| FtpNavigation.BackUndoesPushDown | src/Integration/Infrastructure/Remote/Ftp/FtpClient.cs:34-61 | NavigateBack right after NavigateDown onto a frame restores the earlier stack |
| FtpNavigation.PushDownExtendsPath | src/Integration/Infrastructure/Remote/Ftp/FtpClient.cs:49-63 | Descending extends the current path by "/" and the segment |
| FtpNavigation.PushFrameShowsSegment | src/Integration/Infrastructure/Remote/Ftp/FtpClient.cs:23-32 | A new frame shows "/" and its own segment only |
| FtpNavigation.FtpClient.constructor | src/Integration/Infrastructure/Remote/Ftp/FtpClient.cs:17-21 | No frames |
| FtpNavigation.FtpClient.CurrentPath | src/Integration/Infrastructure/Remote/Ftp/FtpClient.cs:63 | Starts with "/" |
| FtpNavigation.FtpClient.NavigateTo | src/Integration/Infrastructure/Remote/Ftp/FtpClient.cs:23-32 | A blank path throws and changes nothing; otherwise a new frame with the trimmed segment, returning "/" + segment, the new CurrentPath |
| FtpNavigation.FtpClient.NavigateBack | src/Integration/Infrastructure/Remote/Ftp/FtpClient.cs:34-47 | The stack becomes Back of the old one; returns the new CurrentPath |
| FtpNavigation.FtpClient.NavigateDown | src/Integration/Infrastructure/Remote/Ftp/FtpClient.cs:49-61 | A blank name throws; with frames the segment goes on the top frame and the path grows by "/" + segment; with none it behaves as NavigateTo of the trimmed name |
| FtpNavigation.FtpClient.InDirectory | src/Integration/Infrastructure/Remote/Ftp/FtpClient.cs:256-261 | Enter, then its dispose: the block sees the current path with the name appended, and afterwards the stack is exactly what it was; a blank name, or "/" with no frames, throws ArgumentException |
| FtpNavigation.NavigateToSlashPushesEmptySegment | src/Integration/Infrastructure/Remote/Ftp/FtpClient.cs:25-29 | "/" is accepted, pushes an empty segment, and the path stays "/" |
| FtpNavigation.NavigateDownSlashFromRootThrows | src/Integration/Infrastructure/Remote/Ftp/FtpClient.cs:51-56 | With no frames, "/" passes the first check but its trimmed form fails NavigateTo's check |
| MonitorConfig.FirstMatch | src/Integration/Domain/Monitoring/MonitorConfiguration.cs:50 | The first target equal to the name: equal, all earlier ones unequal; None when no target is equal |
| MonitorConfig.EnsuredTargets | src/Integration/Domain/Monitoring/MonitorConfiguration.cs:48-58 | When a target is equal, the first equal target is returned and the targets stay as they were; otherwise a new target with that name and no recipients is appended and returned |
| MonitorConfig.WithoutTarget | src/Integration/Domain/Monitoring/MonitorConfiguration.cs:63 | Keeps exactly the targets not equal to the name |
| MonitorConfig.AssertTargetsIff | src/Integration/Domain/Monitoring/MonitorConfiguration.cs:66-75 | Assert passes iff Targets is not null and exactly one target equals Service, and then returns that target; null Targets and a missing Service give their own InvalidOperationException messages |
| MonitorConfig.DefaultTargetsPassAssert | src/Integration/Domain/Monitoring/MonitorConfiguration.cs:17-75 | The targets of a fresh configuration pass Assert |
| MonitorConfig.EnsureTargetIdempotent | src/Integration/Domain/Monitoring/MonitorConfiguration.cs:44-59 | A second EnsureMonitorTarget changes nothing and returns the same target, so two calls add at most one target |
| MonitorConfig.EnsureTargetKeepsAssert | src/Integration/Domain/Monitoring/MonitorConfiguration.cs:44-75 | EnsureMonitorTarget keeps a passing configuration passing |
| MonitorConfig.RemoveTargetAndAssert | src/Integration/Domain/Monitoring/MonitorConfiguration.cs:61-75 | Removing a target other than Service keeps Assert passing; removing Service makes Assert report it missing |
| MonitorConfig.WithoutTargetAppend | src/Integration/Domain/Monitoring/MonitorConfiguration.cs:63 | RemoveTarget keeps the order of the remaining targets |
| MonitorConfig.FolderText | src/Integration/Domain/Monitoring/MonitorConfiguration.cs:124-137 | The path alone when neither is set; a pattern appends " (pattern = …)" to the path; a criteria appends " (criteria = …)" to the text without it, so with both the pattern comes first |
| MonitorConfig.EnabledFolders | src/Integration/Domain/Monitoring/MonitorConfiguration.cs:106 | Exactly the folders that are enabled, have a non-blank path and a criteria, and only when the section is enabled |
| MonitorConfig.EnabledFoldersAppend | src/Integration/Domain/Monitoring/MonitorConfiguration.cs:106 | Selection keeps the folders' order |
| MonitorConfig.Distinct | src/Integration/Domain/Monitoring/MonitorConfiguration.cs:156 | Except yields each folder not excluded, once, and only those |
| MonitorConfig.Except | src/Integration/Domain/Monitoring/MonitorConfiguration.cs:156 | The removed folder is gone; every other folder stays; no duplicates remain |
| MonitorConfig.ExceptDropsOnlyFolder | src/Integration/Domain/Monitoring/MonitorConfiguration.cs:156 | On a list without duplicates, Except only drops the excluded folder and keeps the order of the rest |
| MonitorConfig.MonitorFoldersConfiguration.constructor | src/Integration/Domain/Monitoring/MonitorConfiguration.cs:79-83 | Enabled, with no folders |
| MonitorConfig.MonitorFoldersConfiguration.Get | src/Integration/Domain/Monitoring/MonitorConfiguration.cs:91-98 | A null folder list becomes empty; the folder at the index, or IndexOutOfRangeException |
| MonitorConfig.MonitorFoldersConfiguration.GetEnabledFolders | src/Integration/Domain/Monitoring/MonitorConfiguration.cs:103-107 | A null folder list becomes empty; returns EnabledFolders |
| MonitorConfig.MonitorFoldersConfiguration.Add | src/Integration/Domain/Monitoring/MonitorConfiguration.cs:140-149 | A null callback throws; otherwise the new folder as the callback left it, with the criteria it returned, goes at the end |
| MonitorConfig.MonitorFoldersConfiguration.Remove | src/Integration/Domain/Monitoring/MonitorConfiguration.cs:151-157 | A null folder throws; otherwise the folders become Except of the folder |
| MonitorConfig.MonitorFoldersConfiguration.Clear | src/Integration/Domain/Monitoring/MonitorConfiguration.cs:159-162 | No folders |
| MonitorConfig.PingUrlsConfiguration.constructor | src/Integration/Domain/Monitoring/MonitorConfiguration.cs:204-215 | Enabled, 120 seconds to wait, no URLs, so ShouldExecute is false |
| MonitorConfig.PingUrlsConfiguration.ShouldExecute | src/Integration/Domain/Monitoring/MonitorConfiguration.cs:215 | Pinging needs an enabled section and URLs: a null or empty URL list never executes |
| MonitorConfig.MonitorConfiguration.constructor | src/Integration/Domain/Monitoring/MonitorConfiguration.cs:17-28 | One target, Service, without recipients; prefix "Integration Service"; fresh folder and ping sections |
| MonitorConfig.MonitorConfiguration.EnsureMonitorTarget | src/Integration/Domain/Monitoring/MonitorConfiguration.cs:44-59 | Null throws ArgumentNullException; otherwise targets and result are EnsuredTargets |
| MonitorConfig.MonitorConfiguration.RemoveTarget | src/Integration/Domain/Monitoring/MonitorConfiguration.cs:61-64 | Null targets stay null; otherwise the targets become WithoutTarget |
| MonitorConfig.MonitorConfiguration.Assert | src/Integration/Domain/Monitoring/MonitorConfiguration.cs:66-75 | Succeeds iff Targets is not null and exactly one target equals Service, returning that target; every failure is an InvalidOperationException |
| MonitorTask.IsDisabled | src/Integration/Domain/Monitoring/MonitorTask.cs:33-40 | Puts the loaded configuration in the context's bag and answers its Disabled flag |
| MonitorTask.StartUsesBaggedConfiguration | src/Integration/Domain/Monitoring/MonitorTask.cs:33-51 | IsDisabled then Start: a disabled configuration does not start; otherwise Start runs on the configuration IsDisabled loaded |
| MonitorTask.Start | src/Integration/Domain/Monitoring/MonitorTask.cs:42-51 | A work item iff exactly one target equals Service; otherwise Assert's InvalidOperationException; the work item gets the ignore texts, targets and grouping patterns |
| MonitorTask.Subject | src/Integration/Domain/Monitoring/MonitorTask.cs:79-89 | "[env] " when there is an environment, followed by the same text as without one: "prefix: " iff the prefix is not blank, then "Monitoring (range)" |
| MonitorTask.SendToOutcome | src/Integration/Domain/Monitoring/MonitorTask.cs:65-93 | No entries, no action; entries but no recipients, one Warning on Service and no e-mail; otherwise exactly one e-mail with that target's entries to its recipients |
| MonitorTask.RouteAllAppend | src/Integration/Domain/Monitoring/MonitorTask.cs:58-59 | Targets are handled in declaration order |
| MonitorTask.RouteAllEmailCount | src/Integration/Domain/Monitoring/MonitorTask.cs:58-93 | One e-mail per target that has entries and recipients |
| MonitorTask.RouteAllEmails | src/Integration/Domain/Monitoring/MonitorTask.cs:58-93 | Every e-mail goes to a configured target with entries and recipients and carries exactly its entries; every such target gets its e-mail |
| MonitorTask.RouteAllKinds | src/Integration/Domain/Monitoring/MonitorTask.cs:65-93 | Routing only logs messages, warns on Service and sends e-mails |
| MonitorTask.End | src/Integration/Domain/Monitoring/MonitorTask.cs:53-63 | LastRun becomes the check range's upper bound, and the trace is EndTrace |
| MonitorTask.EndTraceShape | src/Integration/Domain/Monitoring/MonitorTask.cs:55-62 | One Error on Service listing the unconfigured targets iff there are any; the configuration is saved exactly once, last; one e-mail per deliverable target, none when Targets is null |
| MonitorFoldersStep.ContinueWith | src/Integration/Domain/Monitoring/MonitorFoldersStep.cs:13-19 | StepOver iff no folder is monitored; a null folder list becomes empty |
| MonitorFoldersStep.Listed | src/Integration/Domain/Monitoring/MonitorFoldersStep.cs:46-50 | The first min(count, 10) files, each as " - file", in match order |
| MonitorFoldersStep.FolderMessageShape | src/Integration/Domain/Monitoring/MonitorFoldersStep.cs:42-53 | The message starts with the header counting all matching files; it ends with a "..." line when more than 10 matched, else with the last file's line |
| MonitorFoldersStep.EntriesPerFolder | src/Integration/Domain/Monitoring/MonitorFoldersStep.cs:31-56 | One entry per folder with matching files and none for the others; each entry is for its folder's target and carries its message |
| MonitorFoldersStep.ScanFolders | src/Integration/Domain/Monitoring/MonitorFoldersStep.cs:31-57 | The per-folder log lines and entries, folder by folder |
| MonitorFoldersStep.Execute | src/Integration/Domain/Monitoring/MonitorFoldersStep.cs:21-58 | Logs the monitored folders, then scans them in GetEnabledFolders order |
| TaskConfig.RemoveAll | src/Integration/Model/TaskConfiguration.cs:73 | The step is gone, and every other step keeps its number of occurrences |
| TaskConfig.RemoveAllAppend | src/Integration/Model/TaskConfiguration.cs:73 | Removal keeps the order of the rest |
| TaskConfig.RemoveAllAbsent | src/Integration/Model/TaskConfiguration.cs:73 | Removing a step that is not registered changes nothing |
| TaskConfig.TaskConfiguration.constructor | src/Integration/Model/TaskConfiguration.cs:10-18 | Holds the application and task, with no steps |
| TaskConfig.TaskConfiguration.New | src/Integration/Model/TaskConfiguration.cs:10-18 | A null application, then a null task, throws ArgumentNullException; otherwise a fresh configuration with no steps |
| TaskConfig.TaskConfiguration.Step | src/Integration/Model/TaskConfiguration.cs:55-61 | Appends the step even when it is already present; returns the same instance |
| TaskConfig.TaskConfiguration.Clear | src/Integration/Model/TaskConfiguration.cs:63-68 | No steps; returns the same instance |
| TaskConfig.TaskConfiguration.Remove | src/Integration/Model/TaskConfiguration.cs:70-76 | The steps become RemoveAll of the step; returns the same instance |
| TaskConfig.TaskConfiguration.Equals | src/Integration/Model/TaskConfiguration.cs:27-32 | True iff the other configuration is not null and is for the same task type; the same-object shortcut adds nothing |
| TaskConfig.TaskConfiguration.EqualsObject | src/Integration/Model/TaskConfiguration.cs:34-40 | True iff the other is a configuration of the same runtime class for the same task type |
| TaskConfig.EqualityByTask | src/Integration/Model/TaskConfiguration.cs:27-45 | Equality holds iff the task types agree and is an equivalence; object Equals also needs the same work item type; equal configurations hash alike |
| ExceptionExtensions.InnerException | src/Integration/Infrastructure/Extensions/ExceptionExtensions.cs:73-97 | The inner exception is part of the exception, so the chain is finite |
| ExceptionExtensions.Chain | src/Integration/Infrastructure/Extensions/ExceptionExtensions.cs:38-97 | Starts with the exception itself |
| ExceptionExtensions.Pieces | src/Integration/Infrastructure/Extensions/ExceptionExtensions.cs:38-97 | One piece per exception of the chain, outermost first, at depths 0, 1, … |
| ExceptionExtensions.RenderIsJoinOverChain | src/Integration/Infrastructure/Extensions/ExceptionExtensions.cs:38-97 | A loop down the chain writes each exception's piece once, outermost first, joined by line breaks |
| ExceptionExtensions.AggregateMessages | src/Integration/Infrastructure/Extensions/ExceptionExtensions.cs:73-97 | Null throws ArgumentNullException; otherwise the text is AggregateText |
| ExceptionExtensions.AggregateSingle | src/Integration/Infrastructure/Extensions/ExceptionExtensions.cs:79-86 | At depth 0 the type name and message are only trimmed, on two lines |
| ExceptionExtensions.IndentDashes | src/Integration/Infrastructure/Extensions/ExceptionExtensions.cs:81 | At depth d > 0 a line is 3·d dashes, a space and the text |
| ExceptionExtensions.AppendData | src/Integration/Infrastructure/Extensions/ExceptionExtensions.cs:51-55 | Appends one "key = value" line per Data entry, in order |
| ExceptionExtensions.AppendBlock | src/Integration/Infrastructure/Extensions/ExceptionExtensions.cs:46-55 | Appends the type name, message, a blank line, the stack trace and the Data lines |
| ExceptionExtensions.GetFullStacktrace | src/Integration/Infrastructure/Extensions/ExceptionExtensions.cs:38-64 | Null throws ArgumentNullException; otherwise the text is StacktraceText, each exception's block joined by line breaks |
| ExceptionExtensions.AggregateMessagesOfAggregate | src/Integration/Infrastructure/Extensions/ExceptionExtensions.cs:66-71 | Null throws ArgumentNullException; no inner exceptions give "" |
| ExceptionExtensions.AggregateOverloadSplits | src/Integration/Infrastructure/Extensions/ExceptionExtensions.cs:70 | The inner exceptions' texts, in order, separated by line breaks |
| ExceptionExtensions.DestructMessageOf | src/Integration/Infrastructure/Extensions/ExceptionExtensions.cs:12-14 | Null throws ArgumentNullException; otherwise DestructMessage |
| ExceptionExtensions.DestructMessageUnwraps | src/Integration/Infrastructure/Extensions/ExceptionExtensions.cs:30-35 | A TargetInvocationException with an inner one describes itself as the innermost non-wrapper does |
| ExceptionExtensions.DestructSingleAggregate | src/Integration/Infrastructure/Extensions/ExceptionExtensions.cs:16-28 | An AggregateException with one inner exception gives its message, ":", a blank line, and the inner exception's aggregated messages |
| RuntimeSettings.SetThenRead | src/Integration/InMemoryRuntimeSettings.cs:10-38 | After Set(n, v), n and every name equal to it ignoring case read v; every other name reads as before |
| RuntimeSettings.CaseVariantsShareSetting | src/Integration/InMemoryRuntimeSettings.cs:12 | Names differing only in letter case are one setting |
| RuntimeSettings.InMemoryRuntimeSettings.constructor | src/Integration/InMemoryRuntimeSettings.cs:10-13 | Empty: every name reads null |
| RuntimeSettings.InMemoryRuntimeSettings.Set | src/Integration/InMemoryRuntimeSettings.cs:15-22 | A blank name throws ArgumentException and changes nothing; otherwise the value is stored under the name and the same instance returned |
| RuntimeSettings.InMemoryRuntimeSettings.Get | src/Integration/InMemoryRuntimeSettings.cs:28-38 | A blank name throws ArgumentException; otherwise the stored value, null when never set |
| RuntimeSettings.NamedSettings | src/Integration/InMemoryRuntimeSettings.cs:24-26 | The three properties read "Environment", "ApplicationName" and "InstanceName" through the indexer |
| Repeat.ToInt32 | src/Integration/Infrastructure/Repeat.cs:18-21 | The unchecked cast: an int congruent to the uint modulo 2^32, non-negative iff the uint is below 2^31 |
| Repeat.Range | src/Integration/Infrastructure/Repeat.cs:30 | n elements, the i-th being i + 1 |
| Repeat.Elements | src/Integration/Infrastructure/Repeat.cs:28-31 | ArgumentOutOfRangeException iff the count is negative; otherwise 1, 2, …, count |
| Repeat.ToString | src/Integration/Infrastructure/Repeat.cs:41-44 | "1 time" for 1, "<n> times" for every other count, 0 included |
| Repeat.SmallCountsEnumerate | src/Integration/Infrastructure/Repeat.cs:18-31 | A count below 2^31 enumerates exactly 1..count |
| Repeat.TwiceAndTimes | src/Integration/Infrastructure/Repeat.cs:33-39 | Twice enumerates [1, 2] and prints "2 times"; Times is the cast; 0 enumerates nothing |
| Repeat.LargeCountsWrap | src/Integration/Infrastructure/Repeat.cs:18-44 | A count of 2^31 or more wraps to a negative int: enumerating throws and ToString starts with '-' |

## Left out

- Network, filesystem and clock: the FtpClient network operations and their exception handling, `Directory.EnumerateFiles`, `FilesOlderThanCriteria.IsSatisfiedBy` and `Time.UtcNow` are not modelled. The files matching each folder and the current time are inputs.
- MonitorFoldersStep.Execute: the source reads `Time.UtcNow` again for each entry it adds; the model gives every entry of one `Execute` the same `now`, so it does not capture entries of one run carrying different times.
- `MonitorWorkItem` is not part of this model. Its entries per target, its unconfigured targets and its check range are inputs, and its ignore filters, redirects and grouping are not modelled.
- `MonitorTarget.Equals(ITarget)` is not part of this model. It is the parameter `same`; the lemmas that need it to be an equivalence say so.
- The `ToString` of `MonitorTarget`, `ApplicationEnvironment` and `CheckRange` is not modelled: the texts use the target's name, the environment string and the range's given text.
- Folders and targets are values. `Remove(folder)` removes every equal folder, whereas the source compares references, so two distinct `Folder` objects with equal fields are one folder here.
- MonitorConfig.MonitorConfiguration.RemoveTarget: a null argument is not modelled (the source would call `Equals(null)` on each target).
- Null targets, folders and header names inside arrays are not modelled; the source would throw `NullReferenceException` or `ArgumentNullException` on them.
- Null cells are not modelled: the source accepts them (`From<T>` and `TrySetMember` create them), `IsEmpty` counts them as empty and `Escape` writes them as "".
- The public `CsvRow` constructor accepts any `IDictionary<string, int>` as headers, including a case-sensitive one or one whose indexes are out of range (then reading by name throws IndexOutOfRangeException). The model's headers are always the builder's: the names in column order, compared ignoring case.
- The `CsvRow` constructor keeps the caller's array, so the caller and the row share later writes; the model's row holds a fresh array with the same cells, so that aliasing is not captured.
- RuntimeSettings.InMemoryRuntimeSettings.constructor: only the default dictionary (ordinal, ignoring case) is modelled, not a caller-supplied dictionary with its own comparer.
- Case-insensitive comparison folds ASCII letters only; the full Unicode upper-case mapping of `OrdinalIgnoreCase` is not modelled.
- `CsvRow.From<T>`, `TryGetMember`/`TrySetMember`, the builder's `From`/`FromUsingMapper`/`Configure`/`End` and the `CsvRowHeaders` metadata view are not modelled: reflection, dynamic binding, and thin wrappers over `Add` and `AddUsingMapper`.
- `IsEmpty` and `Length` of a row are modelled without contracts.
- `FileCriterias.FilesOlderThan` converts a `TimeSpan`'s double seconds to `uint`; that floating-point cast is not modelled, and the criteria holds its seconds directly.
- The environment is given as a string; the conversion to `ApplicationEnvironment` is not modelled.
- Exception `Data` entries are given as key and value texts; their `ToString` formatting is not modelled. An AggregateException's `InnerException` is taken to be its first inner exception, as .NET sets it.
- MonitorTask.IsDisabled: loading the configuration through the configuration service is not modelled; the loaded configuration is an input. `Start` is given the configuration from the bag, and `StartUsesBaggedConfiguration` states the order the task runner calls the two in.
- TaskConfig.TaskConfiguration.EqualsObject: `GetType()` is taken to be determined by the work item type, since the only concrete subclass is `TaskConfiguration<TWorkItem>`; `GetHashCode`'s value is modelled only by the key it hashes (the task type). `GetInstaller` is not modelled (DI wiring).
- Application and Task are `const` fields, so no step operation can change them.
- ArgumentException messages are modelled without the parameter-name suffix .NET appends.
