# d-blocks deployment engine, modelled in Dafny

d-blocks keeps the DDL of a Teradata environment in a git repository. It writes every
database object to a file and deploys such directories back to an environment. This
project models the core of that engine and proves properties of it:

- the SQL statement tokenizer (`tokenize_statemets`): a state machine over string
  literals, block comments and a skip counter, with line-numbered `DParsingError`s;
- the deployment command (`deploy_env`, `deploy_queue`, `deploy_file`,
  `deploy_script_with_conflict_strategy`): the queue of files, deletion of databases
  behind checkpoints, the per-file checkpoint and failure bookkeeping, and the `raise`,
  `drop` and `rename` conflict strategies;
- the batch builder of package deployment (`create_batch`, `DeploymentFile.statements`);
- the package deployment walk (`cmd_pkg_deploy`, `_path_to_directories`,
  `case_insensitive_search`);
- the filesystem writer (`TYPE_TO_EXT`/`EXT_TO_TYPE`, `_get_statements`,
  `standardize_subpath`, the file naming of `write_object`, and the choice of files that
  `drop_nonex_objects` deletes);
- the configuration helpers (`from_environ_dict`, `deep_merge_dicts`, `_censore_keys`,
  the merge and version check of `load_config`, `get_environment_from_config`);
- the git change filters (`changes_against`, `_filter_subdir`, and the selection loops of
  `copy` and `copy_changed_files`).

Each imperative routine is a `method` proved against a pure function. The function states
what the routine returns or what state it leaves: `ensures r == Tokenize(text, sep)`, or
`ensures Outcome(r, State()) == Queue(...)`. The lemmas then state the behaviour the
code promises about those functions.

Files and modules:

| file | module | models |
|---|---|---|
| common.dfy | Wrappers, Strings, Order, Paths | `Option`/`Result`, `str.strip`/`lower`/`split`/`join`, `sorted` and list filters, `pathlib` paths as component lists |
| errors.dfy | Errors | the exceptions the core raises |
| meta_model.dfy | MetaModel | `IdentifiedObject`, `DescribedObject`, `ColumnDescription`, `TableStatistic`, `DescribedDatabase`, `DeploymentFailure` |
| tree.dfy | FileTree, Tagging | a directory tree as a list of entries, `glob`/`rglob`/`is_dir`; the tagger as two uninterpreted functions |
| context.dfy | Context | the run context: checkpoints, keys, `done()` |
| dbi.dfy | Dbi | the database interface: a request log and an oracle that answers each request |
| tokenizer.dfy, tokenizer_props.dfy, tokenizer_examples.dfy | Tokenizer, TokenizerProperties, TokenizerExamples | `deployer/tokenizer.py` |
| deployment.dfy | Deployment | `script/workflow/cmd_deployment.py` |
| fsequencer.dfy | Fsequencer | `deployer/fsequencer.py` |
| pkg_deployment.dfy | PkgDeployment | `script/workflow/cmd_pkg_deployment.py` |
| fsystem.dfy | FsWriter | `writer/fsystem.py` |
| config.dfy | Config | `config/config.py` |
| git_copy_changed.dfy | GitCopyChanged | `script/workflow/cmd_git_copy_changed.py` |

The model follows the code where the code and its tests disagree:

- `test/test_tokenizer.py:91-92` expects `select ( ; )` to be one statement. The code
  splits it at the separator, because parentheses play no part in the scan
  (`TokenizerExamples.ExampleParenthesesIgnored`).
- The tests call `tokenize_statements(...)` and read a `.statement` field. The code has
  `tokenize_statemets`, which yields plain strings. Only the inputs and outputs of the
  tests are used.
- Inside a string literal, an apostrophe followed by two more apostrophes is skipped as
  an escape together with them. So `'a'''` never closes its literal
  (`TokenizerExamples.ExampleDoubledApostropheAtEnd`).

## Model

| member | source | states |
|---|---|---|
| Tokenizer.Boundary | src/dblocks_core/deployer/tokenizer.py:109-124 | a boundary is reached exactly at a separator outside strings and comments (both directions); there it yields the stripped slice since the previous boundary and moves the boundary past it; an empty slice, or one that is the separator alone, is an `EmptyStatement` error carrying the line, the statement count and the index |
| Tokenizer.Step | src/dblocks_core/deployer/tokenizer.py:50-124 | one iteration: the line counter grows by one exactly on a line feed, skipped characters included; the boundary moves only when a statement is yielded; every error carries the line counter after the current character |
| Tokenizer.TokenizeStatements | src/dblocks_core/deployer/tokenizer.py:12-141 | the loop, the end checks and the trailing statement compute exactly `Tokenize(text, sep)` |
| Tokenizer.EndOfStatement | src/dblocks_core/deployer/tokenizer.py:109-124 | the end-of-statement check computes `Boundary`: a yielded statement or an `EmptyStatement` error at a separator outside strings and comments, nothing otherwise |
| Tokenizer.ScanChar | src/dblocks_core/deployer/tokenizer.py:50-124 | one pass of the loop body computes `Step`: the skip, the apostrophe, the comment markers, the line feed and the separator check |
| TokenizerProperties.LinesInSnoc | src/dblocks_core/deployer/tokenizer.py:51-53 | the line count of a prefix grows by one exactly at a line feed |
| TokenizerProperties.QuietRun | src/dblocks_core/deployer/tokenizer.py:73-124 | characters that are not apostrophes, comment markers or separators (inside a string or a comment: anything but an apostrophe or a comment end) leave the scan state alone, so a separator inside a string literal or a block comment never ends a statement |
| TokenizerProperties.QuietStep | src/dblocks_core/deployer/tokenizer.py:73-124 | a character that opens or closes nothing and is not a live separator only moves the line counter, by one on a line feed |
| TokenizerProperties.CutExtend | src/dblocks_core/deployer/tokenizer.py:114-124 | a new cut just after a separator adds the stripped slice between the last cut and it |
| TokenizerProperties.RunNext | src/dblocks_core/deployer/tokenizer.py:50-124 | the scan from index `i` is one step and then the scan from `i + 1` |
| TokenizerProperties.FinishSliced | src/dblocks_core/deployer/tokenizer.py:126-141 | after the end checks, the trailing non-blank text is the last slice, and a blank tail adds nothing |
| TokenizerProperties.RunSliced | src/dblocks_core/deployer/tokenizer.py:50-141 | every successful scan yields consecutive stripped slices, each non-empty, and cuts just after every separator it meets outside strings and comments |
| TokenizerProperties.StepSliced | src/dblocks_core/deployer/tokenizer.py:109-124 | a step that yields a statement adds exactly the cut just after the current character; no step removes a cut |
| TokenizerProperties.LiveSeparatorEnds | src/dblocks_core/deployer/tokenizer.py:109-124 | a separator (other than an apostrophe, `/` or `*`) met outside strings and comments, with nothing skipped, ends a statement or fails as an empty one: it is never passed over |
| TokenizerProperties.RunReaches | src/dblocks_core/deployer/tokenizer.py:50-124 | a successful scan passes every later index in some scan state, so every separator in the text is looked at |
| TokenizerProperties.TokenizeSlices | src/dblocks_core/deployer/tokenizer.py:110-141 | the statements are left-to-right, consecutive, non-overlapping slices of the text; each is cut just after a separator (the last one may end at the end of the text), is non-empty, and has no surrounding whitespace; every separator outside strings and comments is such a cut |
| TokenizerProperties.TokenizeBlank | src/dblocks_core/deployer/tokenizer.py:135-141 | blank input, and only blank input, yields no statement (both directions) |
| TokenizerProperties.RunReportedAt | src/dblocks_core/deployer/tokenizer.py:47-53 | a failing scan reports the line counter of the character that failed |
| TokenizerProperties.TokenizeReportedAt | src/dblocks_core/deployer/tokenizer.py:89-133 | every `DParsingError` names one plus the number of line feeds up to the offending character, or in the whole text for the end checks |
| TokenizerExamples.ExampleEmptyStatement | test/test_tokenizer.py:55-65 | `" ; "` fails as an empty statement at line 1 |
| TokenizerExamples.ExampleUnterminatedComment | src/dblocks_core/deployer/tokenizer.py:127-129 | `" /* "` fails as an unterminated comment |
| TokenizerExamples.ExampleCommentEndWithoutStart | src/dblocks_core/deployer/tokenizer.py:100-106 | `" */ "` fails as a comment end with no start |
| TokenizerExamples.ExampleUnterminatedString | src/dblocks_core/deployer/tokenizer.py:131-133 | `" ' "` fails as an unterminated string |
| TokenizerExamples.ExampleTwoStatements | test/test_tokenizer.py:69-72 | `"1;2"` gives `["1;", "2"]`: the separator stays with its statement and the tail is the last statement |
| TokenizerExamples.ExampleSeparatorInString | test/test_tokenizer.py:77-82 | a separator inside a string literal does not split |
| TokenizerExamples.ExampleSeparatorInComment | test/test_tokenizer.py:83-89 | separators and apostrophes inside a block comment are ignored |
| TokenizerExamples.ExampleParenthesesIgnored | test/test_tokenizer.py:90-93 | `"(;)"` is split into `"(;"` and `")"`, unlike what the test expects |
| TokenizerExamples.ExampleDoubledApostropheAtEnd | src/dblocks_core/deployer/tokenizer.py:78-86 | a closing apostrophe followed by two apostrophes is read as an escape, so `'a''';` fails as an unterminated string |
| TokenizerExamples.ExampleLineOfEmptyStatement | src/dblocks_core/deployer/tokenizer.py:51-53 | the line counter counts the line feed before the offending separator |
| Deployment.ScriptErrors | src/dblocks_core/script/workflow/cmd_deployment.py:314-335 | without a strategy there is no argument error; with one, there is an error exactly when the strategy is invalid, the database or the name is missing, or the type is not managed |
| Deployment.Expand | src/dblocks_core/script/workflow/cmd_deployment.py:347 | every statement is expanded by the tagger, one for one |
| Deployment.DryRunSendsNothing | src/dblocks_core/script/workflow/cmd_deployment.py:349-352 | a dry run makes no request to the database |
| Deployment.InvalidArgumentsSendNothing | src/dblocks_core/script/workflow/cmd_deployment.py:334-335 | invalid arguments raise `DOperationsError` with all the messages joined, before any request |
| Deployment.ProcedureIsOneStatement | src/dblocks_core/script/workflow/cmd_deployment.py:343-347 | a procedure is sent as the single expanded script, not tokenized |
| Deployment.RaiseStopsBeforeDeploy | src/dblocks_core/script/workflow/cmd_deployment.py:363-378 | with `raise`, an existing object raises the conflict message after the lookup; no statement is sent |
| Deployment.DropThenDeploy | src/dblocks_core/script/workflow/cmd_deployment.py:379-394 | with `drop`, the lookup, the drop with `ignore_errors=True` and the statements are sent, in that order |
| Deployment.RenameThenDeploy | src/dblocks_core/script/workflow/cmd_deployment.py:382-394 | with `rename`, the object is renamed to `"_" + name + "_" + timestamp` with `ignore_errors=False`, then the statements are sent |
| Deployment.NoStrategyConflict | src/dblocks_core/script/workflow/cmd_deployment.py:390-391 | without a strategy an existing object raises `NotImplementedError` and nothing is deployed |
| Deployment.QueueStepSkipsDone | src/dblocks_core/script/workflow/cmd_deployment.py:166-169 | a checkpointed file is skipped: nothing is sent, nothing changes, the count is 0 |
| Deployment.QueueStepSuccess | src/dblocks_core/script/workflow/cmd_deployment.py:179-198 | a deployed file counts 1, is checkpointed, and its context message and failure are removed; nothing else changes |
| Deployment.QueueStepStatementError | src/dblocks_core/script/workflow/cmd_deployment.py:206-214 | a `DBStatementError` leaves the file without a checkpoint and records its message in the context and its failure under the file's path |
| Deployment.QueueStepOtherError | src/dblocks_core/script/workflow/cmd_deployment.py:200-214 | any other error (lost connection, empty file, `raise` conflict) is not caught per file and ends the queue |
| Deployment.QueueKeepsFinished | src/dblocks_core/script/workflow/cmd_deployment.py:152-216 | the queue never marks the context finished: only the package deployment calls `done()` |
| Deployment.QueueStopsAtBlankFile | src/dblocks_core/script/workflow/cmd_deployment.py:165-233 | a blank file that is not checkpointed stops the queue with `empty file encountered` and its path; the state is left as it was |
| Deployment.QueueStepBookkeeping | src/dblocks_core/script/workflow/cmd_deployment.py:165-214 | one pass keeps failures and checkpoints apart and touches only the file's own key |
| Deployment.QueueBookkeeping | src/dblocks_core/script/workflow/cmd_deployment.py:152-216 | `deploy_queue` never leaves a file both failed and checkpointed, checkpoints and records failures only for its own files, and counts at most one per file |
| Deployment.QueueContents | src/dblocks_core/script/workflow/cmd_deployment.py:64-71 | the queue holds exactly the regular files below the directory with a managed extension other than `.dtb`, sorted; tables and the other files split it, each in queue order |
| Deployment.InQueue | src/dblocks_core/script/workflow/cmd_deployment.py:64-70 | every deployable file below the directory is queued |
| Deployment.Distinct | src/dblocks_core/script/workflow/cmd_deployment.py:74 | the same elements as its input, each once: the result holds no duplicate |
| Deployment.DatabaseNames | src/dblocks_core/script/workflow/cmd_deployment.py:74 | each queued file's database is its expanded parent directory name |
| Deployment.Databases | src/dblocks_core/script/workflow/cmd_deployment.py:74 | the databases are exactly the expanded parent names of the queue, each once, in sorted order |
| Deployment.DeletesOnce | src/dblocks_core/script/workflow/cmd_deployment.py:106-115 | the deletion loop deletes each database at most once and only when its `delete database <db>` checkpoint is unset; every database it got through is checkpointed |
| Deployment.EnvRefusesInvalidStrategy | src/dblocks_core/script/workflow/cmd_deployment.py:44-50 | an unknown strategy raises `DOperationsError` before any request or state change |
| Deployment.EnvRefusesUnexpanded | src/dblocks_core/script/workflow/cmd_deployment.py:74-77 | a database name still holding `{{` raises `DConfigError` before any deletion or deployment |
| Deployment.DeletionKeysOnly | src/dblocks_core/script/workflow/cmd_deployment.py:109-115 | the deletion loop adds only `delete database` checkpoints |
| Deployment.EnvDeploysOnlyTables | src/dblocks_core/script/workflow/cmd_deployment.py:132-149 | as written the wave loop never runs: a run checkpoints only deletion keys and table files, and every failure it returns is a table file |
| Deployment.QueueGrows | src/dblocks_core/script/workflow/cmd_deployment.py:163-216 | a pass never drops a checkpoint and never lowers the count |
| Deployment.QueueProgress | src/dblocks_core/script/workflow/cmd_deployment.py:187-190 | a pass that deploys something checkpoints a queued file that was not checkpointed before |
| Deployment.QueueIdle | src/dblocks_core/script/workflow/cmd_deployment.py:165-216 | a pass that deploys nothing changes no checkpoint, forgets no failure, and leaves each queued file checkpointed or failed |
| Deployment.Shrinks | src/dblocks_core/script/workflow/cmd_deployment.py:136-148 | the files left to deploy get fewer after each productive wave, so the corrected loop ends |
| Deployment.WavesSettle | src/dblocks_core/script/workflow/cmd_deployment.py:132-148 | with the loop condition as intended, the waves end with every other file checkpointed or failed |
| Deployment.WaveShrinks | src/dblocks_core/script/workflow/cmd_deployment.py:132-148 | a wave that deploys a file leaves fewer other files without a checkpoint, so the loop as intended ends |
| Deployment.WavesAfterSettle | src/dblocks_core/script/workflow/cmd_deployment.py:132-149 | after successful waves every file they went over is checkpointed or among the returned failures |
| Deployment.FixedEnvDeploysOthers | src/dblocks_core/script/workflow/cmd_deployment.py:99-149 | with the waves running, a successful run leaves every non-table deployable file checkpointed or among the returned failures |
| Deployment.Deployer.DeployScript | src/dblocks_core/script/workflow/cmd_deployment.py:303-394 | the result and the requests are `ScriptOutcome` of the log before |
| Deployment.Deployer.CheckArguments | src/dblocks_core/script/workflow/cmd_deployment.py:314-333 | the argument checks collect exactly the complaints of `ScriptErrors`, in the order the code appends them |
| Deployment.Deployer.constructor | src/dblocks_core/script/workflow/cmd_deployment.py:28-42 | the deployment keeps its context, database, tagger, managed types and timestamp, and starts with no failures |
| Deployment.Deployer.SendScript | src/dblocks_core/script/workflow/cmd_deployment.py:355-394 | the lookup, the conflict strategy and the statements are sent as `Send` says |
| Deployment.Deployer.DeployFile | src/dblocks_core/script/workflow/cmd_deployment.py:219-256 | an empty or blank script raises; otherwise the script goes through the conflict strategy with the type read from the extension |
| Deployment.Deployer.DeployQueued | src/dblocks_core/script/workflow/cmd_deployment.py:165-214 | one pass of the loop leaves the state `QueueStep` gives; the context is not marked finished |
| Deployment.Deployer.DeployQueue | src/dblocks_core/script/workflow/cmd_deployment.py:152-216 | the count and the new checkpoints, context and failures are those of `Queue`; the context is not marked finished |
| Deployment.Deployer.DeployEnv | src/dblocks_core/script/workflow/cmd_deployment.py:28-149 | the returned failures and the new state are those of `EnvOutcome`, the wave loop included as written; the context is not marked finished |
| Deployment.Deployer.DeleteDatabases | src/dblocks_core/script/workflow/cmd_deployment.py:106-115 | the requests and checkpoints are those of `DeleteFrom`; the context is not marked finished |
| Context.Context.SetCheckpoint | test/test_context.py:22-31 | the checkpoint is set afterwards; nothing else changes |
| Context.Context.constructor | test/test_context.py:15-20 | a context opens with the checkpoints and values it was given and is not finished |
| Context.Context.Get | test/test_context.py:24-41 | the stored value, or `KeyError` for a missing key |
| Context.Context.Put | test/test_context.py:24-26 | the key holds the new value; nothing else changes |
| Context.Context.Delete | src/dblocks_core/script/workflow/cmd_deployment.py:193-194 | the key is removed; a missing key raises `KeyError` and changes nothing |
| Context.Context.Done | src/dblocks_core/script/workflow/cmd_pkg_deployment.py:74 | the run is marked finished; checkpoints and keys stay |
| Dbi.Database.DeleteDatabase | src/dblocks_core/script/workflow/cmd_deployment.py:114 | the request is logged and answered by the oracle |
| Dbi.Database.constructor | src/dblocks_core/script/workflow/cmd_deployment.py:35 | the connection answers through its oracle and has sent no request yet |
| Dbi.Database.GetIdentifiedObject | src/dblocks_core/script/workflow/cmd_deployment.py:359 | the lookup is logged and answered by the oracle |
| Dbi.Database.DropIdentifiedObject | src/dblocks_core/script/workflow/cmd_deployment.py:381 | the drop is logged with its `ignore_errors` flag |
| Dbi.Database.RenameIdentifiedObject | src/dblocks_core/script/workflow/cmd_deployment.py:388 | the rename is logged with the new name and flag |
| Dbi.Database.DeployStatements | src/dblocks_core/script/workflow/cmd_deployment.py:394 | the statements are logged as one request |
| FileTree.SortEntries | src/dblocks_core/script/workflow/cmd_deployment.py:71 | `sorted`: ordered by path and a permutation of the entries |
| FileTree.Children | src/dblocks_core/deployer/fsequencer.py:53 | `glob("*")`: exactly the entries directly inside the directory |
| FileTree.Below | src/dblocks_core/deployer/fsequencer.py:76 | `rglob("*")`: exactly the entries anywhere below the directory |
| Fsequencer.FileStatements | src/dblocks_core/deployer/fsequencer.py:25-32 | the generator yields `Statements(text, sep)`: the tokenizer's statements in order, its errors propagated |
| Fsequencer.WrapAll | src/dblocks_core/deployer/fsequencer.py:31-32 | one `DeploymentStatement` per SQL text, in order, each carrying that text |
| Fsequencer.StatementsShape | test/test_fsequencer.py:68-77 | a blank file yields no statement and only a blank file does; every statement is non-empty with no surrounding whitespace |
| Fsequencer.ScanErrors | src/dblocks_core/deployer/fsequencer.py:53-59 | one complaint per root entry that is not a directory, and nothing else |
| Fsequencer.ScanSteps | src/dblocks_core/deployer/fsequencer.py:53-66 | one step per root directory, and nothing else |
| Fsequencer.ScanStepsOrdered | src/dblocks_core/deployer/fsequencer.py:53-66 | the steps follow the sorted root listing |
| Fsequencer.FileDatabaseRule | src/dblocks_core/deployer/fsequencer.py:82-89 | a file directly in the step has no default database; a deeper one gets its parent's name, tagged exactly when a tagger is given |
| Fsequencer.StepFiles | src/dblocks_core/deployer/fsequencer.py:76-96 | one file per listed entry that is not a directory, and nothing else |
| Fsequencer.StepFilesOrdered | src/dblocks_core/deployer/fsequencer.py:76 | the files follow the sorted listing |
| Fsequencer.Listing | src/dblocks_core/deployer/fsequencer.py:76 | sorted, and exactly the entries below the step |
| Fsequencer.FillAll | src/dblocks_core/deployer/fsequencer.py:74-97 | every step gets its files, in the same order |
| Fsequencer.RootListing | src/dblocks_core/deployer/fsequencer.py:53 | sorted, and exactly the entries directly inside the root |
| Fsequencer.CollectFiles | src/dblocks_core/deployer/fsequencer.py:75-96 | the inner loop collects `StepFiles` |
| Fsequencer.ScanRoot | src/dblocks_core/deployer/fsequencer.py:50-66 | the first loop collects `ScanErrors` and `ScanSteps` |
| Fsequencer.FillFiles | src/dblocks_core/deployer/fsequencer.py:74-97 | the second loop computes `FillAll` |
| Fsequencer.CreateBatch | src/dblocks_core/deployer/fsequencer.py:48-100 | `create_batch` returns or raises `Batch(tree, root, tagger)` |
| Fsequencer.BatchRefusesStrayEntries | src/dblocks_core/deployer/fsequencer.py:68-71 | a batch is refused exactly when the root holds a non-directory, and the one error names every such entry |
| Fsequencer.FilledStepsKeep | src/dblocks_core/deployer/fsequencer.py:99 | empty steps are dropped, every step with files is kept, in order |
| Fsequencer.FilledStepsFrom | src/dblocks_core/deployer/fsequencer.py:74-99 | every kept step has files and is the filling of a scanned step |
| Fsequencer.FilledStepsKeepAll | src/dblocks_core/deployer/fsequencer.py:74-99 | every scanned step whose filling has files is kept |
| Fsequencer.FilledStepsOrdered | src/dblocks_core/deployer/fsequencer.py:99 | filling keeps the order of the steps it keeps |
| Fsequencer.BatchSteps | src/dblocks_core/deployer/fsequencer.py:48-100 | an accepted batch has one step per root directory with files below it, named after it, in path order |
| Fsequencer.StepFilesRule | src/dblocks_core/deployer/fsequencer.py:76-96 | a step's files are in path order, none is a directory, each takes its default database from where it lies |
| Fsequencer.BatchFiles | src/dblocks_core/deployer/fsequencer.py:74-99 | every file of an accepted batch lies below its step, is not a directory and has the database rule's default |
| PkgDeployment.DirectoriesAreNamed | src/dblocks_core/script/workflow/cmd_pkg_deployment.py:77-88 | the result holds exactly the non-empty components of the path |
| PkgDeployment.DirectoriesOfPlain | src/dblocks_core/script/workflow/cmd_pkg_deployment.py:77-88 | a relative path of named components gives its components, root first |
| PkgDeployment.DirectoriesOfParent | src/dblocks_core/script/workflow/cmd_pkg_deployment.py:82-86 | the names of the parent, then the path's own name when it has one; a path that is its own parent has none |
| PkgDeployment.PathToDirectories | src/dblocks_core/script/workflow/cmd_pkg_deployment.py:77-88 | the `while` loop computes `Directories(path)` |
| PkgDeployment.FirstNamedFinds | src/dblocks_core/script/workflow/cmd_pkg_deployment.py:100-106 | the lookup fails exactly when no child has the wanted lower-cased name, and otherwise names the first that does |
| PkgDeployment.Candidates | src/dblocks_core/script/workflow/cmd_pkg_deployment.py:97-99 | the candidates are children of the directory; with the directory test they are directories |
| PkgDeployment.LowerAll | src/dblocks_core/script/workflow/cmd_pkg_deployment.py:93 | one lower-cased name per name |
| PkgDeployment.FirstNamedIn | src/dblocks_core/script/workflow/cmd_pkg_deployment.py:101-104 | the name found belongs to a child that carries it |
| PkgDeployment.FirstNamedLower | src/dblocks_core/script/workflow/cmd_pkg_deployment.py:102 | the name found is the wanted one, ignoring case |
| PkgDeployment.FoundEntry | src/dblocks_core/script/workflow/cmd_pkg_deployment.py:96-106 | one level of the search reaches an entry of the tree |
| PkgDeployment.SearchRestMatches | src/dblocks_core/script/workflow/cmd_pkg_deployment.py:91-110 | the names found match the wanted components one for one, ignoring case, in their original casing |
| PkgDeployment.SearchRestReaches | src/dblocks_core/script/workflow/cmd_pkg_deployment.py:96-110 | every prefix of the result names an entry of the tree, a directory when only directories are candidates |
| PkgDeployment.SearchMatchesFiles | src/dblocks_core/script/workflow/cmd_pkg_deployment.py:98 | as written the search can pick a file named `STEPS` over the directory `steps`, which then fails the `is_dir` check; with the directory test it finds `steps` |
| PkgDeployment.SearchOneLevel | src/dblocks_core/script/workflow/cmd_pkg_deployment.py:96-108 | a one-component search finds the first candidate carrying the name, or nothing |
| PkgDeployment.SearchFindsDirectories | src/dblocks_core/script/workflow/cmd_pkg_deployment.py:97-99 | with `is_dir()` called, every prefix of the result is a directory |
| PkgDeployment.SearchRestStep | src/dblocks_core/script/workflow/cmd_pkg_deployment.py:101-106 | one turn of the loop moves the name found from the search still to do to the names found |
| PkgDeployment.FindNamed | src/dblocks_core/script/workflow/cmd_pkg_deployment.py:100-106 | the inner loop computes `FirstNamed` |
| PkgDeployment.CaseInsensitiveSearch | src/dblocks_core/script/workflow/cmd_pkg_deployment.py:91-110 | the search as written computes `Search(tree, root, subdir, false)` |
| PkgDeployment.Reached | src/dblocks_core/script/workflow/cmd_pkg_deployment.py:58-64 | the files reached are those whose `step->file` checkpoint is unset, in order |
| PkgDeployment.StepSets | src/dblocks_core/script/workflow/cmd_pkg_deployment.py:69-72 | a step sets its own checkpoint; as written also only the last file's checkpoint |
| PkgDeployment.WalkCheckpoints | src/dblocks_core/script/workflow/cmd_pkg_deployment.py:48-72 | a walk only adds checkpoints, ends with every step checkpointed, and adds only checkpoints that steps set |
| PkgDeployment.RewalkReachesNothing | src/dblocks_core/script/workflow/cmd_pkg_deployment.py:49-52 | after a complete walk a second one reaches no file, since every step is skipped |
| PkgDeployment.WalkForgetsFiles | src/dblocks_core/script/workflow/cmd_pkg_deployment.py:58-69 | as written, a file that is not the last of its step is deployed by the walk and yet stays unchecked after it |
| PkgDeployment.WalkReachesFile | src/dblocks_core/script/workflow/cmd_pkg_deployment.py:48-72 | a file whose step and file checkpoints are unset, and that no other step checkpoints, is deployed by the walk |
| PkgDeployment.FixedWalkKeepsFiles | src/dblocks_core/script/workflow/cmd_pkg_deployment.py:58-72 | with the checkpoint set inside the loop, every file of a step not skipped is checkpointed |
| PkgDeployment.PkgDeployOutcome | src/dblocks_core/script/workflow/cmd_pkg_deployment.py:19-74 | the deployment fails exactly when the steps directory is not found, is not a directory, or holds a non-directory; a failure sets no checkpoint; a success walks the batch |
| PkgDeployment.PkgDeployMissingDirectory | src/dblocks_core/script/workflow/cmd_pkg_deployment.py:27-32 | without the case-insensitive search, a missing directory is reported with its full path |
| PkgDeployment.ReachFiles | src/dblocks_core/script/workflow/cmd_pkg_deployment.py:58-68 | the files reached and the loop variable's last key |
| PkgDeployment.WalkSteps | src/dblocks_core/script/workflow/cmd_pkg_deployment.py:48-72 | the checkpoints and files reached are those of `Walk` as written; the context's keys are untouched |
| PkgDeployment.CmdPkgDeploy | src/dblocks_core/script/workflow/cmd_pkg_deployment.py:10-74 | the outcome is `PkgDeploy`, and `done()` is called exactly on success |
| FsWriter.TypeToExtInverse | src/dblocks_core/writer/fsystem.py:23-37 | every type's extension maps back to the type |
| FsWriter.ExtToTypeInverse | src/dblocks_core/writer/fsystem.py:37 | every managed extension maps back to itself |
| FsWriter.ExtensionsDistinct | src/dblocks_core/writer/fsystem.py:11-35 | no two types share an extension |
| FsWriter.ExtensionsShaped | src/dblocks_core/writer/fsystem.py:11-21 | each extension is a dot followed by lower-case letters |
| FsWriter.Ddls | src/dblocks_core/writer/fsystem.py:172-174 | each detail contributes its `ddl_statement` |
| FsWriter.FirstStatistic | src/dblocks_core/writer/fsystem.py:167-171 | the index of the first statistic, where the extra blank entry goes |
| FsWriter.FirstUnsupported | src/dblocks_core/writer/fsystem.py:175-177 | the index of the first detail of another kind, where `NotImplementedError` is raised |
| FsWriter.StatementsRefused | src/dblocks_core/writer/fsystem.py:175-177 | the statements are refused exactly when some detail is neither a column nor a statistic |
| FsWriter.LaidStep | src/dblocks_core/writer/fsystem.py:162-174 | reading one more column or statistic keeps the layout |
| FsWriter.StatementsLayout | src/dblocks_core/writer/fsystem.py:150-179 | definition, then `"\n" + comment`, a blank entry before the first detail, another before the first statistic only, then the details' statements |
| FsWriter.LaidUnique | src/dblocks_core/writer/fsystem.py:150-179 | the layout determines the statements |
| FsWriter.JoinLines | src/dblocks_core/writer/fsystem.py:145 | joining fails exactly when a statement is missing |
| FsWriter.Parts | src/dblocks_core/writer/fsystem.py:203-204 | each parent is lower-cased and read as a path |
| FsWriter.NestSingles | src/dblocks_core/writer/fsystem.py:202-204 | prepending single names puts the last one outermost |
| FsWriter.StandardizedPlain | src/dblocks_core/writer/fsystem.py:196-206 | the target directory, the lower-cased parents from last to first, then the lower-cased subpath |
| FsWriter.ExampleStandardized | test/test_databases.py:75-85 | `A_STO` under `[A_STG_PRODUCTION, A_PRODUCTION]` goes to `a_production/a_stg_production/a_sto` |
| FsWriter.StandardizedName | src/dblocks_core/writer/fsystem.py:196-206 | the directory always ends in the lower-cased name asked for |
| FsWriter.FirstUnmapped | src/dblocks_core/writer/fsystem.py:74-79 | the first existing object whose type has no extension |
| FsWriter.FileNameShape | src/dblocks_core/writer/fsystem.py:136 | a written file name is plain and lower case |
| FsWriter.FileNameRoundTrip | src/dblocks_core/writer/fsystem.py:128-136 | the file name's suffix maps back to the object type and its stem is the lower-cased object name |
| FsWriter.WrittenFileSurvives | src/dblocks_core/writer/fsystem.py:64-107 | a file written for an object that still exists, under its database's tag, is not deleted |
| FsWriter.WrittenIn | src/dblocks_core/writer/fsystem.py:128-138 | the file lies directly in the standardized directory, and its name is the lower-cased object name followed by the extension of its type |
| FsWriter.WrittenPathShape | src/dblocks_core/writer/fsystem.py:136-138 | the written file's directory is named after the tag and its name is the lower-cased object name plus the extension, up to case |
| FsWriter.ExpectedContains | src/dblocks_core/writer/fsystem.py:64-82 | each existing object has a mapped type, and its `tag/name.ext` path is among the expected paths |
| FsWriter.FSWriter.GetStatements | src/dblocks_core/writer/fsystem.py:150-179 | the loop computes `Statements(obj)` |
| FsWriter.FSWriter.constructor | src/dblocks_core/writer/fsystem.py:43-49 | the writer keeps its target directory and the files it writes to |
| FsWriter.FSWriter.StandardizeSubpath | src/dblocks_core/writer/fsystem.py:181-206 | the loop computes `Standardized(targetDir, sub, parents)` |
| FsWriter.FSWriter.WriteObject | src/dblocks_core/writer/fsystem.py:120-148 | on success the target file gets the joined statements and nothing else changes; an unknown type or detail writes nothing |
| FsWriter.FSWriter.ExpectedObjects | src/dblocks_core/writer/fsystem.py:64-82 | the loop computes the expected `tag/name.ext` paths, or raises at the first unmapped type |
| FsWriter.FSWriter.DropNonexObjects | src/dblocks_core/writer/fsystem.py:51-107 | exactly the stale files are deleted: managed suffix, parent a tag in scope, and `parent/file` not expected; an unmapped type raises before anything is deleted |
| Config.PutGet | src/dblocks_core/config/config.py:300-307 | after the walk the value sits at the key path |
| Config.PutKeepsOthers | src/dblocks_core/config/config.py:300-307 | paths that part from the key path keep their values |
| Config.PutFails | src/dblocks_core/config/config.py:300-307 | the walk raises `TypeError` exactly when a proper prefix of the key path reaches a string or a list |
| Config.PutIntoEmpty | src/dblocks_core/config/config.py:300-307 | the walk into an empty dict never fails |
| Config.FromEnvironIgnoresOthers | src/dblocks_core/config/config.py:284-295 | variables whose lower-cased name lacks the lower-cased prefix play no part |
| Config.FromEnvironNests | src/dblocks_core/config/config.py:297-307 | `PREFIX` + `a__b` gives `{a: {b: value}}` |
| Config.NestedParts | src/dblocks_core/config/config.py:291-297 | a key whose lower-cased form is the prefix, `a`, `__` and `b`, with no `_` in `a` or `b`, splits into the parts `a` and `b` |
| Config.ExampleDatabaseHost | src/dblocks_core/config/config.py:271-283 | `DBLOCKS_DATABASE__HOST=localhost` gives `{"database": {"host": "localhost"}}` |
| Config.SplitAround | src/dblocks_core/config/config.py:299 | splitting `a + "__" + b` on `"__"` gives `[a, b]` when neither holds `_` |
| Config.FromEnvironDict | src/dblocks_core/config/config.py:249-308 | the loop computes `FromEnviron(prefix, env)` |
| Config.FromEnvironErrSticks | src/dblocks_core/config/config.py:291-307 | once the walk fails, later variables do not change the error |
| Config.Merge | src/dblocks_core/config/config.py:340-346 | the keys of the merge are the keys of both dicts |
| Config.MergeSelf | src/dblocks_core/config/config.py:311-346 | merging a dict with itself gives it back |
| Config.MergeEmpty | src/dblocks_core/config/config.py:340-346 | merging with an empty dict, on either side, changes nothing |
| Config.MergeLaterWins | src/dblocks_core/config/config.py:341-345 | a scalar or list that `dict2` holds at a path is what the merge holds there |
| Config.MergeBothDicts | src/dblocks_core/config/config.py:341-343 | where both dicts hold a dict at a key, the merge holds the merge of the two |
| Config.MergeEarlierStays | src/dblocks_core/config/config.py:340-345 | at any depth: where both dicts hold dicts along a path down to a point below which `dict2` holds nothing, the merge holds what `dict1` holds at the path |
| Config.Censored | src/dblocks_core/config/config.py:225-238 | censoring keeps the key set |
| Config.CensoreKeys | src/dblocks_core/config/config.py:225-238 | the loop computes `Censored(data, keys, placeholder)` |
| Config.CensoredHidesSecrets | src/dblocks_core/config/config.py:230-235 | at any path ending in a listed key there is nothing or the placeholder |
| Config.CensoredKeepsOthers | src/dblocks_core/config/config.py:230-235 | a value reached by unlisted keys is unchanged; lists are not searched |
| Config.CensoredIdempotent | src/dblocks_core/config/config.py:225-238 | censoring twice is censoring once |
| Config.MergeAllLast | src/dblocks_core/config/config.py:129-131 | merging the sources in order ends with a merge of the last one |
| Config.LoadOutcome | src/dblocks_core/config/config.py:123-146 | a load succeeds exactly when the environment walk succeeds and the merged version is `1.0.0`; a value the environment sets overrides every file |
| Config.LoadNeedsVersion | test/test_config.py:30-34 | with no file and no variable the version is missing and the load raises `DConfigError` |
| Config.LoadConfig | src/dblocks_core/config/config.py:104-146 | the merge loop and the version check compute `Load(files, prefix, env)` |
| Config.GetEnvironment | src/dblocks_core/config/config.py:37-46 | the named environment when there is one; otherwise `DConfigError` naming the environments there are |
| GitCopyChanged.PosixJoined | src/dblocks_core/script/workflow/cmd_git_copy_changed.py:103-107 | a path other than `.` or `/` prints as its joined components |
| GitCopyChanged.SlashPrefix | src/dblocks_core/script/workflow/cmd_git_copy_changed.py:107 | two components without `/` followed by `/` agree as prefixes exactly when they are equal |
| GitCopyChanged.NoSlashPrefix | src/dblocks_core/script/workflow/cmd_git_copy_changed.py:107 | a text without `/` never starts with a component and a `/` |
| GitCopyChanged.JoinPrefix | src/dblocks_core/script/workflow/cmd_git_copy_changed.py:103-107 | the joined path starts with another joined path plus `/` exactly when the other is a proper prefix |
| GitCopyChanged.FilterSubdirBelow | src/dblocks_core/script/workflow/cmd_git_copy_changed.py:99-110 | the filter keeps exactly the changes strictly below a subdirectory, in order; a subdirectory itself is not kept |
| GitCopyChanged.InSubdirIsBelow | src/dblocks_core/script/workflow/cmd_git_copy_changed.py:105-108 | the text test on one subdirectory is the path test |
| GitCopyChanged.CopiesAppend | src/dblocks_core/script/workflow/cmd_git_copy_changed.py:44-55 | the copies of two logs are the copies of each |
| GitCopyChanged.CopyPlanCopies | src/dblocks_core/script/workflow/cmd_git_copy_changed.py:35-55 | `copy` copies exactly the changes with a status in `can_copy`, from the repository to `into_subdir`, in order |
| GitCopyChanged.CopyPlanParents | src/dblocks_core/script/workflow/cmd_git_copy_changed.py:50-55 | each parent directory is made once, before the first copy into it |
| GitCopyChanged.Copy | src/dblocks_core/script/workflow/cmd_git_copy_changed.py:20-57 | returns the changes of `changes_against` and performs `CopyPlan` |
| GitCopyChanged.ChangesAgainstOutcome | src/dblocks_core/script/workflow/cmd_git_copy_changed.py:60-178 | the comparison fails with `DOperationsError` exactly for an unknown kind, a branch compared with itself, or a commit not on the current branch; a branch comparison without subdirectories keeps every change since the merge base |
| GitCopyChanged.SelectedPairs | src/dblocks_core/script/workflow/cmd_git_copy_changed.py:218-230 | a pair is selected exactly when it comes from a change below the source with a status in `TO_COPY` and goes to the same relative place below the target |
| GitCopyChanged.TransfersFrom | src/dblocks_core/script/workflow/cmd_git_copy_changed.py:247-259 | every copy comes from a selected pair whose source exists, and every existing source is copied |
| GitCopyChanged.CopyChangedOutcome | src/dblocks_core/script/workflow/cmd_git_copy_changed.py:197-259 | fails exactly when the source subdirectory is not a directory; copies only selected changes; copies every existing one unless cancelled; a cancel only makes directories |
| GitCopyChanged.SelectChanges | src/dblocks_core/script/workflow/cmd_git_copy_changed.py:218-230 | the selection loop computes `Selected` and the parents it makes |
| GitCopyChanged.TransferAll | src/dblocks_core/script/workflow/cmd_git_copy_changed.py:247-259 | the copy loop computes `Transfers` |
| GitCopyChanged.CopyChangedFiles | src/dblocks_core/script/workflow/cmd_git_copy_changed.py:197-259 | `copy_changed_files` computes `CopyChanged` |

## Left out

- Input and output are parameters. File contents are a `text` argument. Directory
  listings are a `Tree` of entries. Console prompts become a boolean: the confirmation
  of `deploy_env` is left out and the answer of `copy_changed_files` is `proceed`. The
  rename timestamp is a parameter rather than a clock read. Logging is left out.
- `_confirm_deployment`, `make_report`, `dbe.py` and `cmd_extraction.py` are not part of
  this model: they are console UI, report writing and orchestration.
- The tagger's rewriting rules and the context's persistence to disk are not part of this
  model. The tagger is two uninterpreted functions. The context is a class holding
  checkpoints and keys; reloading it is its constructor with the saved content.
- The database is an oracle. Each request's answer is a function of the requests made
  before it. Its SQL behaviour is not modelled.
- `meta_model.MANAGED_TYPES` is a parameter of the run.
- `DeploymentStatement.md5` is left out; it needs an MD5 implementation.
- Strings are sequences of characters. `lower()` and `strip()` act on ASCII letters and
  ASCII/Latin-1 whitespace only; Unicode case mapping is not modelled.
- Paths are lists of components. `resolve()`, symbolic links and `..` are not modelled:
  the repository directory is taken as already absolute.
- `load_config`: reading and parsing the TOML files is left out; the parsed files are a
  parameter, in location order. `cattrs.structure` of the merged dict is left out, so the
  result is the merged dict. A version that is a dict or a list is shown by a marker
  rather than by Python's `repr`.
- Config.GetEnvironment: the environments are a list of name/value pairs in dict order
  rather than a dict, so the name list in the message keeps their order.
- Config.FromEnvironDict: the `write_to` cursor mutates nested dicts in place; the model
  rebuilds the dict by value along the key path, so sharing between nested dicts is not
  modelled.
- Config.CensoreKeys: the code also censors, in place, the dict a listed key held before
  it was replaced. That dict is no longer reachable, so the model leaves it out.
- `deep_merge_dicts` does not change `dict1`. In the model every dict is a value, so this
  holds by construction and there is no separate lemma.
- Git commands are the arrow-typed fields of `Repo`; their failures (`DGitCommandError`)
  and `git.py` itself are not part of this model. The status message shows the branch
  list without Python's string escaping.
- `shutil.copy`, `copytree` and `mkdir` are effects in a returned log. The filesystem is
  not updated between them, so the `exists()`/`is_dir()` tests of `copy_changed_files`
  read the tree as it was before the copy.
- Deployment.ScriptErrors: the complaint about an unmanaged object type ends "expected one
  of the managed types" instead of printing `meta_model.MANAGED_TYPES`
  (cmd_deployment.py:330-333). The managed types are a set parameter here and have no
  printed form.
- FsWriter.Statements: the `NotImplementedError` for a detail of an unknown kind names the
  detail's description. The code prints `repr` of the detail and of the whole object
  (fsystem.py:176-177).
- Deployment.Quoted: Python's `repr` of a string is modelled as the text in single quotes.
  Escaping quotes or backslashes, and switching to double quotes, are not modelled. The
  same applies to `InvalidStrategyMessage`, `ListText` and the `NotImplementedError` that
  `SendScript` and `Send` raise for an unknown `if_exists`.
- The corrected definitions (`Deployment.FixedEnvOutcome`, `Deployment.Waves`, the
  `fixed` walk of `PkgDeployment.Walk`, `PkgDeployment.Search` with `dirsOnly`) stand
  beside the as-written ones. The methods follow the code as written.

## Findings

| source | as written | input that shows it | evidently intended | confidence | as-written member | corrected member |
|---|---|---|---|---|---|---|
| src/dblocks_core/script/workflow/cmd_deployment.py:134-136 | `deployed_cnt = -1` then `while deployed_cnt == 0:`, so the wave loop never runs | any directory holding a view or procedure file next to tables: only the tables are deployed and the other file is neither checkpointed nor reported as failed | `while deployed_cnt != 0:` so waves repeat until one deploys nothing | high, not executed | Deployment.EnvDeploysOnlyTables | Deployment.FixedEnvDeploysOthers |
| src/dblocks_core/script/workflow/cmd_pkg_deployment.py:69 | `ctx.set_checkpoint(file_chk)` sits after the file loop, so only the last file of a step is checkpointed | a step with two files: the first file's `step->file` checkpoint is never set | set the file checkpoint inside the loop, after each file | high, not executed | PkgDeployment.WalkForgetsFiles | PkgDeployment.FixedWalkKeepsFiles |
| src/dblocks_core/script/workflow/cmd_pkg_deployment.py:98 | `if d.is_dir` tests the bound method, which is always true, so files are candidates too | a package holding a file `STEPS` listed before a directory `steps`: the search returns `STEPS` and the deployment stops with "directory not found" | `if d.is_dir()` so only directories are matched | high, not executed | PkgDeployment.SearchMatchesFiles | PkgDeployment.SearchFindsDirectories |
