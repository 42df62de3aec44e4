/** Deployment of a directory of DDL scripts: the conflict strategy applied to one
    script, the per-file bookkeeping of checkpoints and failures, and the run over a
    whole environment. Every operation is given twice: as a function from the state
    before to the outcome and the state after, and as the method on the `Deployer`
    that the function specifies. */
module Deployment {
  import opened Wrappers
  import opened Strings
  import opened Paths
  import opened Order
  import opened Errors
  import opened MetaModel
  import opened FileTree
  import opened Tagging
  import opened Dbi
  import Tokenizer
  import FsWriter
  import Context

  const RAISE_STRATEGY: string := "raise"
  const DROP_STRATEGY: string := "drop"
  const RENAME_STRATEGY: string := "rename"
  const STRATEGIES: seq<string> := [DROP_STRATEGY, RENAME_STRATEGY, RAISE_STRATEGY]
  const SEMICOLON: char := ';'

  /** What a run works against besides its own state: the database's behaviour, the
      tagger, the managed object types and the timestamp a rename appends. */
  datatype Env = Env(oracle: Oracle, tagger: Tagger, managedTypes: set<string>, timestamp: string)

  /** Everything a deployment may change: the context's checkpoints, messages and
      `done()` flag, the failures recorded so far, and the requests sent to the
      database. */
  datatype RunState = RunState(
    checkpoints: set<string>,
    data: map<string, string>,
    failures: map<string, DeploymentFailure>,
    log: seq<Call>,
    finished: bool)

  /** The result of an operation together with the state it leaves behind. */
  datatype Outcome<T> = Outcome(result: Result<T, Error>, state: RunState)

  // ---------------------------------------------------------------------------
  // Messages

  /** A Python string literal for `s` (quotes inside `s` are not escaped). */
  function Quoted(s: string): string
  {
    "'" + s + "'"
  }

  /** `str(x)` of an optional string: the value, or `None`. */
  function OptionText(x: Option<string>): string
  {
    if x.Some? then x.value else "None"
  }

  /** `repr` of a list of strings. */
  function ListText(xs: seq<string>): string
  {
    var quoted := seq(|xs|, i requires 0 <= i < |xs| => Quoted(xs[i]));
    "[" + Join(quoted, ", ") + "]"
  }

  function InvalidStrategyMessage(s: string): string
  {
    "Invalid value: if_exists=" + Quoted(s) + "\nexpected one of: " + ListText(STRATEGIES)
  }

  /** `if_exists` is `None` or one of the three strategies. */
  predicate ValidStrategy(ifExists: Option<string>)
  {
    ifExists.None? || ifExists.value in STRATEGIES
  }

  // ---------------------------------------------------------------------------
  // deploy_script_with_conflict_strategy

  /** The argument errors collected before anything is done; they are only looked
      for when a strategy is given. */
  function ScriptErrors(odb: Option<string>, oname: Option<string>, otype: Option<string>,
                        ifExists: Option<string>, managedTypes: set<string>): (r: seq<string>)
    ensures ifExists.None? ==> r == []
    ensures ifExists.Some? ==>
      (r == [] <==> ValidStrategy(ifExists) && odb.Some? && oname.Some?
                    && (otype.None? || otype.value in managedTypes))
  {
    if ifExists.None? then []
    else
      (if ifExists.value !in STRATEGIES then [InvalidStrategyMessage(ifExists.value)] else [])
      + (if odb.None? then ["if_exists was given, but object_database is None"] else [])
      + (if oname.None? then ["if_exists was given, but object_name is None"] else [])
      + (if otype.Some? && otype.value !in managedTypes
         then ["if_exists was given, but object_type=" + Quoted(otype.value)
               + ", expected one of the managed types"]
         else [])
  }

  /** `[tgr.expand_statement(s) for s in statements]`. */
  function Expand(tagger: Tagger, statements: seq<string>): (r: seq<string>)
    ensures |r| == |statements|
    ensures forall i :: 0 <= i < |r| ==> r[i] == tagger.expandStatement(statements[i])
  {
    seq(|statements|, i requires 0 <= i < |statements| => tagger.expandStatement(statements[i]))
  }

  /** The statements sent for a script: a procedure is one statement, any other
      script is split by the tokenizer; each is then expanded. */
  function ScriptStatements(tagger: Tagger, script: string, otype: Option<string>): Result<seq<string>, Error>
  {
    if otype == Some(PROCEDURE) then Ok(Expand(tagger, [script]))
    else
      match Tokenizer.Tokenize(script, SEMICOLON)
      case Err(f) => Err(ParsingError(f))
      case Ok(statements) => Ok(Expand(tagger, statements))
  }

  function ConflictMessage(database: string, name: string, otype: Option<string>): string
  {
    "Cannot continue as the object we try to deploy exists.\n"
    + "  - database = " + database + "\n"
    + "  - object = " + name + "\n"
    + "  - existing object type = " + OptionText(otype) + "\n"
    + "These strategies that deal with the conflict could be used: " + ListText(STRATEGIES)
  }

  /** The name an existing object is renamed to before it is replaced. */
  function RenamedName(name: string, timestamp: string): string
  {
    "_" + name + "_" + timestamp
  }

  /** `ext.deploy_statements(statements)`. */
  function SendStatements(env: Env, log: seq<Call>, statements: seq<string>): (Result<(), Error>, seq<Call>)
  {
    var c := DeployStatements(statements);
    (env.oracle.outcome(log, c), log + [c])
  }

  /** What happens when the object to deploy already exists. */
  function Conflict(env: Env, log: seq<Call>, obj: IdentifiedObject, database: string, name: string,
                    otype: Option<string>, ifExists: Option<string>, statements: seq<string>)
    : (Result<(), Error>, seq<Call>)
  {
    if ifExists == Some(RAISE_STRATEGY) then
      (Err(OperationsError(ConflictMessage(database, name, otype))), log)
    else if ifExists == Some(DROP_STRATEGY) then
      var c := DropIdentifiedObject(obj, true);
      var r := env.oracle.outcome(log, c);
      if r.Err? then (r, log + [c]) else SendStatements(env, log + [c], statements)
    else if ifExists == Some(RENAME_STRATEGY) then
      var c := RenameIdentifiedObject(obj, RenamedName(name, env.timestamp), false);
      var r := env.oracle.outcome(log, c);
      if r.Err? then (r, log + [c]) else SendStatements(env, log + [c], statements)
    else
      (Err(NotImplemented("unsupported: if_exists=" + (if ifExists.Some? then Quoted(ifExists.value) else "None"))), log)
  }

  /** `deploy_script_with_conflict_strategy`: the outcome and the requests made. */
  function ScriptOutcome(env: Env, log: seq<Call>, script: string, odb: Option<string>,
                         oname: Option<string>, otype: Option<string>, ifExists: Option<string>,
                         dryRun: bool): (Result<(), Error>, seq<Call>)
  {
    var errs := ScriptErrors(odb, oname, otype, ifExists, env.managedTypes);
    if errs != [] then (Err(OperationsError(Join(errs, "\n"))), log)
    else
      match ScriptStatements(env.tagger, script, otype)
      case Err(e) => (Err(e), log)
      case Ok(statements) =>
        if dryRun then (Ok(()), log) else Send(env, log, statements, odb, oname, otype, ifExists)
  }

  /** The requests of a script that is not a dry run: the existence check when the
      object is named, the conflict strategy, and the statements. */
  function Send(env: Env, log: seq<Call>, statements: seq<string>, odb: Option<string>,
                oname: Option<string>, otype: Option<string>, ifExists: Option<string>)
    : (Result<(), Error>, seq<Call>)
  {
    if odb.None? || oname.None? then SendStatements(env, log, statements)
    else
      var log1 := log + [GetIdentifiedObject(odb.value, oname.value)];
      match env.oracle.lookup(log, odb.value, oname.value)
      case Err(e) => (Err(e), log1)
      case Ok(None) => SendStatements(env, log1, statements)
      case Ok(Some(obj)) => Conflict(env, log1, obj, odb.value, oname.value, otype, ifExists, statements)
  }

  /** A dry run sends nothing to the database. */
  lemma DryRunSendsNothing(env: Env, log: seq<Call>, script: string, odb: Option<string>,
                           oname: Option<string>, otype: Option<string>, ifExists: Option<string>)
    ensures ScriptOutcome(env, log, script, odb, oname, otype, ifExists, true).1 == log
  {
  }

  /** Invalid arguments are reported together before any request is made. */
  lemma InvalidArgumentsSendNothing(env: Env, log: seq<Call>, script: string, odb: Option<string>,
                                    oname: Option<string>, otype: Option<string>,
                                    ifExists: Option<string>, dryRun: bool)
    requires ifExists.Some? && !ValidStrategy(ifExists)
    ensures var (r, log') := ScriptOutcome(env, log, script, odb, oname, otype, ifExists, dryRun);
            r.Err? && r.error.OperationsError? && log' == log
  {
    var errs := ScriptErrors(odb, oname, otype, ifExists, env.managedTypes);
    assert errs[0] == InvalidStrategyMessage(ifExists.value);
  }

  /** A procedure is sent as one statement, unsplit. */
  lemma ProcedureIsOneStatement(tagger: Tagger, script: string)
    ensures ScriptStatements(tagger, script, Some(PROCEDURE)) == Ok([tagger.expandStatement(script)])
  {
    var e := Expand(tagger, [script]);
    assert |e| == 1 && e[0] == tagger.expandStatement(script);
    assert e == [e[0]];
  }

  /** The arguments of one conflict test: a valid call with an existing object. */
  predicate Existing(env: Env, log: seq<Call>, script: string, db: string, name: string,
                     otype: Option<string>, obj: IdentifiedObject)
  {
    && (otype.None? || otype.value in env.managedTypes)
    && ScriptStatements(env.tagger, script, otype).Ok?
    && env.oracle.lookup(log, db, name) == Ok(Some(obj))
  }

  /** With `raise`, an existing object stops the deployment after the lookup: no
      statement is sent. */
  lemma RaiseStopsBeforeDeploy(env: Env, log: seq<Call>, script: string, db: string, name: string,
                               otype: Option<string>, obj: IdentifiedObject)
    requires Existing(env, log, script, db, name, otype, obj)
    ensures ScriptOutcome(env, log, script, Some(db), Some(name), otype, Some(RAISE_STRATEGY), false)
            == (Err(OperationsError(ConflictMessage(db, name, otype))), log + [GetIdentifiedObject(db, name)])
  {
  }

  /** With `drop`, an existing object is dropped, ignoring errors, and then the
      statements are sent. */
  lemma DropThenDeploy(env: Env, log: seq<Call>, script: string, db: string, name: string,
                       otype: Option<string>, obj: IdentifiedObject)
    requires Existing(env, log, script, db, name, otype, obj)
    requires env.oracle.outcome(log + [GetIdentifiedObject(db, name)], DropIdentifiedObject(obj, true)).Ok?
    ensures var statements := ScriptStatements(env.tagger, script, otype).value;
            ScriptOutcome(env, log, script, Some(db), Some(name), otype, Some(DROP_STRATEGY), false).1
            == log + [GetIdentifiedObject(db, name), DropIdentifiedObject(obj, true), DeployStatements(statements)]
  {
  }

  /** With `rename`, an existing object is renamed to `_<name>_<timestamp>`, not
      ignoring errors, and then the statements are sent. */
  lemma RenameThenDeploy(env: Env, log: seq<Call>, script: string, db: string, name: string,
                         otype: Option<string>, obj: IdentifiedObject)
    requires Existing(env, log, script, db, name, otype, obj)
    requires env.oracle.outcome(log + [GetIdentifiedObject(db, name)],
                                RenameIdentifiedObject(obj, RenamedName(name, env.timestamp), false)).Ok?
    ensures var statements := ScriptStatements(env.tagger, script, otype).value;
            ScriptOutcome(env, log, script, Some(db), Some(name), otype, Some(RENAME_STRATEGY), false).1
            == log + [GetIdentifiedObject(db, name),
                      RenameIdentifiedObject(obj, RenamedName(name, env.timestamp), false),
                      DeployStatements(statements)]
  {
  }

  /** Without a strategy, an existing object is not handled at all. */
  lemma NoStrategyConflict(env: Env, log: seq<Call>, script: string, db: string, name: string,
                           otype: Option<string>, obj: IdentifiedObject)
    requires ScriptStatements(env.tagger, script, otype).Ok?
    requires env.oracle.lookup(log, db, name) == Ok(Some(obj))
    ensures var (r, log') := ScriptOutcome(env, log, script, Some(db), Some(name), otype, None, false);
            r.Err? && r.error.NotImplemented? && log' == log + [GetIdentifiedObject(db, name)]
  {
    assert ScriptErrors(Some(db), Some(name), otype, None, env.managedTypes) == [];
    var statements := ScriptStatements(env.tagger, script, otype).value;
    var c := Conflict(env, log + [GetIdentifiedObject(db, name)], obj, db, name, otype, None, statements);
    assert c.0.Err? && c.0.error.NotImplemented?;
    assert ScriptOutcome(env, log, script, Some(db), Some(name), otype, None, false) == c;
  }

  // ---------------------------------------------------------------------------
  // deploy_file

  /** The object type of a file, from its extension. */
  function FileType(f: Entry): Option<string>
  {
    FsWriter.ExtToType(Suffix(Name(f.path)))
  }

  /** `deploy_file`: an empty or blank script is refused; the rest goes through the
      conflict strategy with the type read from the extension. */
  function FileOutcome(env: Env, log: seq<Call>, f: Entry, db: string, name: string,
                       ifExists: Option<string>, dryRun: bool): (Result<(), Error>, seq<Call>)
  {
    if |Strip(f.text)| == 0 then (Err(OperationsError("empty file encountered: " + Posix(f.path))), log)
    else ScriptOutcome(env, log, f.text, Some(db), Some(name), FileType(f), ifExists, dryRun)
  }

  // ---------------------------------------------------------------------------
  // deploy_queue

  /** The checkpoint of a file: its path. */
  function FileKey(f: Entry): string
  {
    Posix(f.path)
  }

  /** The object a file holds is named after the file, without its extension. */
  function ObjectName(f: Entry): string
  {
    Stem(Name(f.path))
  }

  /** The database of a file is the expanded name of its directory. */
  function ObjectDatabase(tagger: Tagger, f: Entry): string
  {
    tagger.expandStatement(Stem(Name(Parent(f.path))))
  }

  /** How one file of the queue is deployed: its outcome and the log after, from the
      log before. */
  type FileDeploy = (seq<Call>, Entry) -> (Result<(), Error>, seq<Call>)

  /** `deploy_file` as `deploy_queue` calls it: into the file's database, under the
      file's name, never as a dry run. */
  function Deploys(env: Env, ifExists: Option<string>): FileDeploy
  {
    (log: seq<Call>, f: Entry) => FileOutcome(env, log, f, ObjectDatabase(env.tagger, f), ObjectName(f), ifExists, false)
  }

  /** One pass of the loop in `deploy_queue`: the number of files deployed (0 or 1),
      or the error that ends the loop. */
  function QueueStep(deploy: FileDeploy, st: RunState, f: Entry): Outcome<nat>
  {
    var chk := FileKey(f);
    if chk in st.checkpoints then Outcome(Ok(0), st)
    else
      var (r, log) := deploy(st.log, f);
      if r.Ok? then
        var data := if chk in st.data then st.data - {chk} else st.data;
        var failures := if chk in st.failures then st.failures - {chk} else st.failures;
        Outcome(Ok(1), RunState(st.checkpoints + {chk}, data, failures, log, st.finished))
      else if r.error.StatementError? then
        var fail := DeploymentFailure(Some(chk), Some(r.error.statement), Some(r.error.message));
        Outcome(Ok(0), RunState(st.checkpoints, st.data[chk := r.error.message], st.failures[chk := fail], log, st.finished))
      else
        Outcome(Err(r.error), st.(log := log))
  }

  /** `deploy_queue` from the `i`-th file on, with `count` files deployed so far. */
  function QueueFrom(deploy: FileDeploy, st: RunState, files: seq<Entry>, i: nat, count: nat): Outcome<nat>
    requires i <= |files|
    decreases |files| - i
  {
    if i == |files| then Outcome(Ok(count), st)
    else
      var o := QueueStep(deploy, st, files[i]);
      if o.result.Err? then Outcome(Err(o.result.error), o.state)
      else QueueFrom(deploy, o.state, files, i + 1, count + o.result.value)
  }

  /** The queue never calls `done()` on the context. */
  lemma {:induction false} QueueKeepsFinished(deploy: FileDeploy, st: RunState, files: seq<Entry>, i: nat, count: nat)
    requires i <= |files|
    ensures QueueFrom(deploy, st, files, i, count).state.finished == st.finished
    decreases |files| - i
  {
    if i < |files| {
      var o := QueueStep(deploy, st, files[i]);
      if o.result.Ok? {
        QueueKeepsFinished(deploy, o.state, files, i + 1, count + o.result.value);
      }
    }
  }

  /** `deploy_queue(files)`. */
  function Queue(env: Env, ifExists: Option<string>, st: RunState, files: seq<Entry>): Outcome<nat>
  {
    QueueFrom(Deploys(env, ifExists), st, files, 0, 0)
  }

  /** A file already checkpointed is skipped: nothing is sent and nothing changes. */
  lemma QueueStepSkipsDone(deploy: FileDeploy, st: RunState, f: Entry)
    requires FileKey(f) in st.checkpoints
    ensures QueueStep(deploy, st, f) == Outcome(Ok(0), st)
  {
  }

  /** A deployed file is counted and checkpointed, and its message and failure are
      forgotten; nothing else changes. */
  lemma QueueStepSuccess(deploy: FileDeploy, st: RunState, f: Entry)
    requires FileKey(f) !in st.checkpoints
    requires deploy(st.log, f).0.Ok?
    ensures var o := QueueStep(deploy, st, f);
            && o.result == Ok(1)
            && o.state.checkpoints == st.checkpoints + {FileKey(f)}
            && FileKey(f) !in o.state.data && FileKey(f) !in o.state.failures
            && (forall k :: k != FileKey(f) ==> (k in o.state.data <==> k in st.data))
            && (forall k :: k != FileKey(f) ==> (k in o.state.failures <==> k in st.failures))
  {
  }

  /** A failed statement leaves the file without a checkpoint and records the
      failure, under the file's path, in the failures and in the context. */
  lemma QueueStepStatementError(deploy: FileDeploy, st: RunState, f: Entry, statement: string, message: string)
    requires FileKey(f) !in st.checkpoints
    requires deploy(st.log, f).0 == Err(StatementError(statement, message))
    ensures var o := QueueStep(deploy, st, f);
            && o.result == Ok(0)
            && o.state.checkpoints == st.checkpoints
            && o.state.data == st.data[FileKey(f) := message]
            && o.state.failures == st.failures[FileKey(f) := DeploymentFailure(Some(FileKey(f)), Some(statement), Some(message))]
  {
  }

  /** Any other error, a lost connection included, ends the queue with that error. */
  lemma QueueStepOtherError(deploy: FileDeploy, st: RunState, f: Entry, e: Error)
    requires FileKey(f) !in st.checkpoints
    requires deploy(st.log, f).0 == Err(e)
    requires !e.StatementError?
    ensures QueueStep(deploy, st, f).result == Err(e)
  {
  }

  /** A blank file stops `deploy_queue` where it stands: `deploy_file` raises
      `DOperationsError` for it, the loop does not catch that, and so nothing is sent,
      no file after it is deployed or checkpointed, and no failure is recorded. */
  lemma QueueStopsAtBlankFile(env: Env, ifExists: Option<string>, st: RunState, files: seq<Entry>, i: nat, count: nat)
    requires i < |files| && FileKey(files[i]) !in st.checkpoints && |Strip(files[i].text)| == 0
    ensures QueueFrom(Deploys(env, ifExists), st, files, i, count)
         == Outcome(Err(OperationsError("empty file encountered: " + Posix(files[i].path))), st)
  {
    var deploy := Deploys(env, ifExists);
    assert deploy(st.log, files[i]).0 == Err(OperationsError("empty file encountered: " + Posix(files[i].path)));
    QueueStepOtherError(deploy, st, files[i], OperationsError("empty file encountered: " + Posix(files[i].path)));
  }

  /** The keys of the files the queue holds from the `i`-th on. */
  function KeysFrom(files: seq<Entry>, i: nat): set<string>
    requires i <= |files|
  {
    set k | i <= k < |files| :: FileKey(files[k])
  }

  /** One pass keeps failures and checkpoints apart, and touches only the file's key. */
  lemma QueueStepBookkeeping(deploy: FileDeploy, st: RunState, f: Entry)
    requires st.failures.Keys !! st.checkpoints
    ensures var o := QueueStep(deploy, st, f);
            && o.state.failures.Keys !! o.state.checkpoints
            && st.checkpoints <= o.state.checkpoints <= st.checkpoints + {FileKey(f)}
            && o.state.failures.Keys <= st.failures.Keys + {FileKey(f)}
            && (o.result.Ok? ==> o.result.value <= 1)
  {
  }

  /** The queue never leaves a file both failed and checkpointed, it only
      checkpoints and records failures for its own files, and it deploys at most
      one file per entry. */
  lemma {:induction false} QueueBookkeeping(deploy: FileDeploy, st: RunState, files: seq<Entry>, i: nat, count: nat)
    requires i <= |files|
    requires st.failures.Keys !! st.checkpoints
    ensures var o := QueueFrom(deploy, st, files, i, count);
            && o.state.failures.Keys !! o.state.checkpoints
            && st.checkpoints <= o.state.checkpoints <= st.checkpoints + KeysFrom(files, i)
            && o.state.failures.Keys <= st.failures.Keys + KeysFrom(files, i)
            && (o.result.Ok? ==> count <= o.result.value <= count + |files| - i)
    decreases |files| - i
  {
    if i < |files| {
      var o := QueueStep(deploy, st, files[i]);
      QueueStepBookkeeping(deploy, st, files[i]);
      KeysFromNext(files, i);
      QueueFromNext(deploy, st, files, i, count);
      if o.result.Ok? {
        QueueBookkeeping(deploy, o.state, files, i + 1, count + o.result.value);
      }
    }
  }

  lemma KeysFromNext(files: seq<Entry>, i: nat)
    requires i < |files|
    ensures KeysFrom(files, i) == {FileKey(files[i])} + KeysFrom(files, i + 1)
  {
  }

  lemma QueueFromNext(deploy: FileDeploy, st: RunState, files: seq<Entry>, i: nat, count: nat)
    requires i < |files|
    ensures var o := QueueStep(deploy, st, files[i]);
      QueueFrom(deploy, st, files, i, count) ==
        if o.result.Err? then Outcome(Err(o.result.error), o.state)
        else QueueFrom(deploy, o.state, files, i + 1, count + o.result.value)
  {
  }

  // ---------------------------------------------------------------------------
  // deploy_env

  /** The queue keeps the regular files with a managed extension other than the
      database one. */
  predicate Queued(e: Entry)
  {
    var suffix := Suffix(Name(e.path));
    e.kind == File && FsWriter.ExtToType(suffix).Some? && suffix != FsWriter.DATABASE_SUFFIX
  }

  predicate IsTable(e: Entry)
  {
    Suffix(Name(e.path)) == FsWriter.TABLE_SUFFIX
  }

  predicate IsOther(e: Entry)
  {
    !IsTable(e)
  }

  /** The sorted queue of files below the deployment directory. */
  function DeployQueue(tree: Tree, dir: Path): seq<Entry>
  {
    SortEntries(Filter(Below(tree, dir), Queued))
  }

  /** The queue holds exactly the deployable files below the directory, in order;
      the tables and the other files split it, each in queue order. */
  lemma QueueContents(tree: Tree, dir: Path)
    ensures var queue := DeployQueue(tree, dir);
            && (forall e :: e in queue <==> e in tree && IsBelow(e.path, dir) && Queued(e))
            && Sorted(queue, EntryLe)
            && Sorted(Filter(queue, IsTable), EntryLe) && Sorted(Filter(queue, IsOther), EntryLe)
            && multiset(Filter(queue, IsTable)) + multiset(Filter(queue, IsOther)) == multiset(queue)
  {
    var queue := DeployQueue(tree, dir);
    forall e ensures e in queue <==> e in Filter(Below(tree, dir), Queued) {
      assert e in queue <==> e in multiset(queue);
      assert e in Filter(Below(tree, dir), Queued) <==> e in multiset(Filter(Below(tree, dir), Queued));
    }
    FilterSorted(queue, IsTable, EntryLe);
    FilterSorted(queue, IsOther, EntryLe);
    FilterPartition(queue, IsTable, IsOther);
  }

  predicate StrLe(a: string, b: string)
  {
    !StrLess(b, a)
  }

  /** The first occurrence of each element, in order. */
  function Distinct(xs: seq<string>): (r: seq<string>)
    ensures forall x :: x in r <==> x in xs
    ensures NoDup(r)
  {
    if xs == [] then []
    else
      var rest := Distinct(xs[..|xs| - 1]);
      assert xs == xs[..|xs| - 1] + [xs[|xs| - 1]];
      if xs[|xs| - 1] in rest then rest else rest + [xs[|xs| - 1]]
  }

  /** The directory name each queued file is deployed into, before de-duplication. */
  function DatabaseNames(tagger: Tagger, queue: seq<Entry>): (r: seq<string>)
    ensures |r| == |queue|
    ensures forall i :: 0 <= i < |r| ==> r[i] == ObjectDatabase(tagger, queue[i])
  {
    seq(|queue|, i requires 0 <= i < |queue| => ObjectDatabase(tagger, queue[i]))
  }

  /** `sorted({tgr.expand_statement(f.parent.stem) for f in queue})`. */
  function Databases(tagger: Tagger, queue: seq<Entry>): (r: seq<string>)
    ensures forall d :: d in r <==> exists f :: f in queue && ObjectDatabase(tagger, f) == d
    ensures NoDup(r) && Sorted(r, StrLe)
  {
    var names := DatabaseNames(tagger, queue);
    var distinct := Distinct(names);
    StrLessStrictTotal();
    NotLessIsTotalPreorder(StrLess);
    SortCorrect(distinct, StrLe);
    SortNoDup(distinct, StrLe);
    var r := Sort(distinct, StrLe);
    assert forall d :: d in r <==> d in multiset(r);
    assert forall d :: d in distinct <==> d in multiset(distinct);
    forall d | d in names ensures exists f :: f in queue && ObjectDatabase(tagger, f) == d {
      var i :| 0 <= i < |names| && names[i] == d;
      assert queue[i] in queue;
    }
    forall f | f in queue ensures ObjectDatabase(tagger, f) in names {
      var i :| 0 <= i < |queue| && queue[i] == f;
      assert names[i] == ObjectDatabase(tagger, f);
    }
    r
  }

  /** The database names that still hold a placeholder. */
  function Unexpanded(databases: seq<string>): seq<string>
  {
    Filter(databases, (d: string) => ContainsSubstring(d, "{{"))
  }

  function DeletionKey(database: string): string
  {
    "delete database " + database
  }

  /** The deletion loop of `deploy_env` from the `i`-th database on. */
  function DeleteFrom(env: Env, st: RunState, databases: seq<string>, i: nat): Outcome<()>
    requires i <= |databases|
    decreases |databases| - i
  {
    if i == |databases| then Outcome(Ok(()), st)
    else
      var chk := DeletionKey(databases[i]);
      if chk in st.checkpoints then DeleteFrom(env, st, databases, i + 1)
      else
        var c := DeleteDatabase(databases[i]);
        var r := env.oracle.outcome(st.log, c);
        var st1 := st.(log := st.log + [c]);
        if r.Err? then Outcome(Err(r.error), st1)
        else DeleteFrom(env, st1.(checkpoints := st1.checkpoints + {chk}), databases, i + 1)
  }

  /** The requests the deletion loop adds to the log delete each database at most
      once, and only databases whose checkpoint was not set; every database it got
      through is checkpointed. Nothing else changes. */
  lemma {:induction false} DeletesOnce(env: Env, st: RunState, databases: seq<string>, i: nat)
    requires i <= |databases|
    ensures var o := DeleteFrom(env, st, databases, i);
            && |st.log| <= |o.state.log| && o.state.log[..|st.log|] == st.log
            && (forall k :: |st.log| <= k < |o.state.log| ==>
                  && o.state.log[k].DeleteDatabase?
                  && DeletionKey(o.state.log[k].database) !in st.checkpoints
                  && o.state.log[k].database in databases[i..])
            && (forall k, l :: |st.log| <= k < l < |o.state.log| ==> o.state.log[k] != o.state.log[l])
            && st.checkpoints <= o.state.checkpoints
            && (o.result.Ok? ==> forall d :: d in databases[i..] ==> DeletionKey(d) in o.state.checkpoints)
            && o.state.data == st.data && o.state.failures == st.failures
    decreases |databases| - i
  {
    if i < |databases| {
      var chk := DeletionKey(databases[i]);
      if chk in st.checkpoints {
        DeletesOnce(env, st, databases, i + 1);
      } else {
        var c := DeleteDatabase(databases[i]);
        var st1 := st.(log := st.log + [c]);
        if env.oracle.outcome(st.log, c).Ok? {
          var st2 := st1.(checkpoints := st1.checkpoints + {chk});
          DeletesOnce(env, st2, databases, i + 1);
          var o := DeleteFrom(env, st2, databases, i + 1);
          assert o.state.log[..|st2.log|] == st2.log;
          assert o.state.log[|st.log|] == c;
          forall k, l | |st.log| <= k < l < |o.state.log| ensures o.state.log[k] != o.state.log[l] {
            if k == |st.log| {
              assert DeletionKey(o.state.log[l].database) !in st2.checkpoints;
            }
          }
        }
      }
    }
  }

  /** `deploy_env`, after the confirmation prompt. */
  function EnvOutcome(env: Env, st: RunState, tree: Tree, dir: Path, ifExists: Option<string>,
                      deleteDatabases: bool): Outcome<map<string, DeploymentFailure>>
  {
    if !ValidStrategy(ifExists) then Outcome(Err(OperationsError(InvalidStrategyMessage(ifExists.value))), st)
    else
      var queue := DeployQueue(tree, dir);
      var unexpanded := Unexpanded(Databases(env.tagger, queue));
      if unexpanded != [] then
        Outcome(Err(ConfigError("these databases are not expanded, check config: " + ListText(unexpanded))), st)
      else
        var d := if deleteDatabases then DeleteFrom(env, st, Databases(env.tagger, queue), 0) else Outcome(Ok(()), st);
        if d.result.Err? then Outcome(Err(d.result.error), d.state)
        else
          var q := Queue(env, ifExists, d.state.(failures := map[]), Filter(queue, IsTable));
          if q.result.Err? then Outcome(Err(q.result.error), q.state)
          else Outcome(Ok(q.state.failures), q.state)
  }

  /** An invalid strategy is refused before anything else is done. */
  lemma EnvRefusesInvalidStrategy(env: Env, st: RunState, tree: Tree, dir: Path, ifExists: Option<string>,
                                  deleteDatabases: bool)
    requires ifExists.Some? && ifExists.value !in STRATEGIES
    ensures var o := EnvOutcome(env, st, tree, dir, ifExists, deleteDatabases);
            o.result.Err? && o.result.error.OperationsError? && o.state == st
  {
  }

  /** A database name left with a placeholder stops the run before any deletion or
      deployment. */
  lemma EnvRefusesUnexpanded(env: Env, st: RunState, tree: Tree, dir: Path, ifExists: Option<string>,
                             deleteDatabases: bool, f: Entry)
    requires ValidStrategy(ifExists)
    requires f in tree && IsBelow(f.path, dir) && Queued(f)
    requires ContainsSubstring(ObjectDatabase(env.tagger, f), "{{")
    ensures var o := EnvOutcome(env, st, tree, dir, ifExists, deleteDatabases);
            o.result.Err? && o.result.error.ConfigError? && o.state == st
  {
    var queue := DeployQueue(tree, dir);
    InQueue(tree, dir, f);
    var databases := Databases(env.tagger, queue);
    assert ObjectDatabase(env.tagger, f) in databases;
    var unexpanded := Unexpanded(databases);
    assert ObjectDatabase(env.tagger, f) in unexpanded;
    assert EnvOutcome(env, st, tree, dir, ifExists, deleteDatabases)
           == Outcome(Err(ConfigError("these databases are not expanded, check config: " + ListText(unexpanded))), st);
  }

  /** Every deployable file below the directory is in the queue. */
  lemma InQueue(tree: Tree, dir: Path, f: Entry)
    requires f in tree && IsBelow(f.path, dir) && Queued(f)
    ensures f in DeployQueue(tree, dir)
  {
    var kept := Filter(Below(tree, dir), Queued);
    assert f in kept;
    assert f in multiset(SortEntries(kept));
  }

  /** A checkpoint the deletion loop sets. */
  ghost predicate IsDeletionKey(k: string)
  {
    exists d :: k == DeletionKey(d)
  }

  /** The wave loop never runs, so a run deploys only tables: the checkpoints it adds
      are deletion keys and the keys of table files; the failures it returns are
      table files, and none of them is checkpointed. */
  lemma EnvDeploysOnlyTables(env: Env, st: RunState, tree: Tree, dir: Path, ifExists: Option<string>,
                             deleteDatabases: bool)
    ensures var o := EnvOutcome(env, st, tree, dir, ifExists, deleteDatabases);
            var tables := Filter(DeployQueue(tree, dir), IsTable);
            && (forall k :: k in o.state.checkpoints && k !in st.checkpoints ==>
                  IsDeletionKey(k) || k in KeysFrom(tables, 0))
            && (o.result.Ok? ==>
                  o.result.value.Keys !! o.state.checkpoints && o.result.value.Keys <= KeysFrom(tables, 0))
  {
    var o := EnvOutcome(env, st, tree, dir, ifExists, deleteDatabases);
    var queue := DeployQueue(tree, dir);
    var tables := Filter(queue, IsTable);
    var databases := Databases(env.tagger, queue);
    if !ValidStrategy(ifExists) || Unexpanded(databases) != [] {
      assert o.state == st;
      return;
    }
    var d := if deleteDatabases then DeleteFrom(env, st, databases, 0) else Outcome(Ok(()), st);
    if deleteDatabases {
      DeletionKeysOnly(env, st, databases, 0);
    }
    if d.result.Err? {
      assert o.state == d.state;
      return;
    }
    var st1 := d.state.(failures := map[]);
    var q := Queue(env, ifExists, st1, tables);
    assert o == if q.result.Err? then Outcome(Err(q.result.error), q.state) else Outcome(Ok(q.state.failures), q.state);
    QueueBookkeeping(Deploys(env, ifExists), st1, tables, 0, 0);
  }

  /** The deletion loop only adds deletion keys. */
  lemma {:induction false} DeletionKeysOnly(env: Env, st: RunState, databases: seq<string>, i: nat)
    requires i <= |databases|
    ensures forall k :: k in DeleteFrom(env, st, databases, i).state.checkpoints && k !in st.checkpoints ==>
              IsDeletionKey(k)
    decreases |databases| - i
  {
    if i < |databases| {
      var chk := DeletionKey(databases[i]);
      if chk in st.checkpoints {
        DeletionKeysOnly(env, st, databases, i + 1);
      } else {
        var c := DeleteDatabase(databases[i]);
        var st1 := st.(log := st.log + [c]);
        if env.oracle.outcome(st.log, c).Ok? {
          DeletionKeysOnly(env, st1.(checkpoints := st1.checkpoints + {chk}), databases, i + 1);
        }
      }
    }
  }

  // ---------------------------------------------------------------------------
  // The wave loop as evidently intended

  /** Checkpoints are never dropped by the queue, and the count never goes down. */
  lemma {:induction false} QueueGrows(deploy: FileDeploy, st: RunState, files: seq<Entry>, i: nat, count: nat)
    requires i <= |files|
    ensures var o := QueueFrom(deploy, st, files, i, count);
            st.checkpoints <= o.state.checkpoints && (o.result.Ok? ==> o.result.value >= count)
    decreases |files| - i
  {
    if i < |files| {
      var o := QueueStep(deploy, st, files[i]);
      if o.result.Ok? {
        QueueGrows(deploy, o.state, files, i + 1, count + o.result.value);
      }
    }
  }

  /** A pass that deploys a file checkpoints a file of the queue that was not
      checkpointed before. */
  lemma {:induction false} QueueProgress(deploy: FileDeploy, st: RunState, files: seq<Entry>, i: nat, count: nat)
    requires i <= |files|
    ensures var o := QueueFrom(deploy, st, files, i, count);
            o.result.Ok? && o.result.value > count ==>
              exists k :: k in KeysFrom(files, i) && k !in st.checkpoints && k in o.state.checkpoints
    decreases |files| - i
  {
    if i < |files| {
      var o := QueueStep(deploy, st, files[i]);
      if o.result.Ok? {
        var rest := QueueFrom(deploy, o.state, files, i + 1, count + o.result.value);
        QueueProgress(deploy, o.state, files, i + 1, count + o.result.value);
        QueueGrows(deploy, o.state, files, i + 1, count + o.result.value);
        assert KeysFrom(files, i) == {FileKey(files[i])} + KeysFrom(files, i + 1);
        if o.result.value > 0 {
          assert FileKey(files[i]) in rest.state.checkpoints;
        } else {
          assert o.state.checkpoints == st.checkpoints;
        }
      }
    }
  }

  /** A pass that deploys nothing changes no checkpoint, forgets no failure, and
      leaves every file of the queue checkpointed or failed. */
  lemma {:induction false} QueueIdle(deploy: FileDeploy, st: RunState, files: seq<Entry>, i: nat, count: nat)
    requires i <= |files|
    ensures var o := QueueFrom(deploy, st, files, i, count);
            o.result == Ok(count) ==>
              && o.state.checkpoints == st.checkpoints
              && st.failures.Keys <= o.state.failures.Keys
              && forall k :: i <= k < |files| ==> FileKey(files[k]) in o.state.checkpoints || FileKey(files[k]) in o.state.failures
    decreases |files| - i
  {
    if i < |files| {
      var o := QueueStep(deploy, st, files[i]);
      if o.result.Ok? {
        QueueIdle(deploy, o.state, files, i + 1, count + o.result.value);
        QueueGrows(deploy, o.state, files, i + 1, count + o.result.value);
      }
    }
  }

  /** A set that loses an element it had, and gains none, gets smaller. */
  lemma Shrinks(x: set<string>, y: set<string>, k: string)
    requires x <= y && k in y && k !in x
    ensures |x| < |y|
  {
    SubsetSize(x, y - {k});
  }

  lemma {:induction false} SubsetSize(x: set<string>, y: set<string>)
    requires x <= y
    ensures |x| <= |y|
    decreases |y|
  {
    if x != {} {
      var e :| e in x;
      SubsetSize(x - {e}, y - {e});
    }
  }

  /** The other files are deployed wave after wave, the first wave always, until a
      wave deploys none of them (`while deployed_cnt != 0`, `deployed_cnt` starting at
      -1). A wave that deploys a file checkpoints it, so the waves come to an end. */
  function Waves(env: Env, ifExists: Option<string>, st: RunState, others: seq<Entry>): Outcome<()>
    decreases |KeysFrom(others, 0) - st.checkpoints|
  {
    var q := Queue(env, ifExists, st, others);
    if q.result.Err? then Outcome(Err(q.result.error), q.state)
    else if q.result.value == 0 then Outcome(Ok(()), q.state)
    else
      WaveShrinks(env, ifExists, st, others);
      Waves(env, ifExists, q.state, others)
  }

  lemma WaveShrinks(env: Env, ifExists: Option<string>, st: RunState, others: seq<Entry>)
    ensures var q := Queue(env, ifExists, st, others);
            q.result.Ok? && q.result.value > 0 ==>
              |KeysFrom(others, 0) - q.state.checkpoints| < |KeysFrom(others, 0) - st.checkpoints|
  {
    var q := Queue(env, ifExists, st, others);
    QueueProgress(Deploys(env, ifExists), st, others, 0, 0);
    QueueGrows(Deploys(env, ifExists), st, others, 0, 0);
    if q.result.Ok? && q.result.value > 0 {
      var k :| k in KeysFrom(others, 0) && k !in st.checkpoints && k in q.state.checkpoints;
      Shrinks(KeysFrom(others, 0) - q.state.checkpoints, KeysFrom(others, 0) - st.checkpoints, k);
    }
  }

  /** When the waves end without an error, every other file is checkpointed or
      recorded as failed. */
  lemma {:induction false} WavesSettle(env: Env, ifExists: Option<string>, st: RunState, others: seq<Entry>)
    ensures var w := Waves(env, ifExists, st, others);
            w.result.Ok? ==> forall f :: f in others ==> FileKey(f) in w.state.checkpoints || FileKey(f) in w.state.failures
    decreases |KeysFrom(others, 0) - st.checkpoints|
  {
    var q := Queue(env, ifExists, st, others);
    if q.result.Ok? {
      if q.result.value == 0 {
        QueueIdle(Deploys(env, ifExists), st, others, 0, 0);
      } else {
        WaveShrinks(env, ifExists, st, others);
        WavesSettle(env, ifExists, q.state, others);
      }
    }
  }

  /** The waves over the other files after a run `o` that got through the tables; they
      share its failures. */
  function WavesAfter(env: Env, ifExists: Option<string>, o: Outcome<map<string, DeploymentFailure>>,
                      others: seq<Entry>): Outcome<map<string, DeploymentFailure>>
  {
    if o.result.Err? then o
    else
      var w := Waves(env, ifExists, o.state, others);
      if w.result.Err? then Outcome(Err(w.result.error), w.state)
      else Outcome(Ok(w.state.failures), w.state)
  }

  /** `deploy_env` with the wave loop running as evidently intended: the run as
      written, then the waves over the other files. */
  function FixedEnvOutcome(env: Env, st: RunState, tree: Tree, dir: Path, ifExists: Option<string>,
                           deleteDatabases: bool): Outcome<map<string, DeploymentFailure>>
  {
    WavesAfter(env, ifExists, EnvOutcome(env, st, tree, dir, ifExists, deleteDatabases),
               Filter(DeployQueue(tree, dir), IsOther))
  }

  /** After successful waves every file they went over is checkpointed or failed. */
  lemma WavesAfterSettle(env: Env, ifExists: Option<string>, o: Outcome<map<string, DeploymentFailure>>,
                         others: seq<Entry>, f: Entry)
    requires f in others
    ensures var w := WavesAfter(env, ifExists, o, others);
            w.result.Ok? ==> FileKey(f) in w.state.checkpoints || FileKey(f) in w.result.value
  {
    if o.result.Ok? {
      WavesSettle(env, ifExists, o.state, others);
    }
  }

  /** With the waves running, a successful run leaves every deployable file below the
      directory that is not a table checkpointed or among the failures it returns. */
  lemma FixedEnvDeploysOthers(env: Env, st: RunState, tree: Tree, dir: Path, ifExists: Option<string>,
                              deleteDatabases: bool, f: Entry)
    requires f in tree && IsBelow(f.path, dir) && Queued(f) && IsOther(f)
    ensures var o := FixedEnvOutcome(env, st, tree, dir, ifExists, deleteDatabases);
            o.result.Ok? ==> FileKey(f) in o.state.checkpoints || FileKey(f) in o.result.value
  {
    InQueue(tree, dir, f);
    WavesAfterSettle(env, ifExists, EnvOutcome(env, st, tree, dir, ifExists, deleteDatabases),
                     Filter(DeployQueue(tree, dir), IsOther), f);
  }

  // ---------------------------------------------------------------------------
  // The deployer

  /** The module-level functions of the deployment command, around the state they
      share: the context, the database interface and the failures found so far. */
  class Deployer {
    const ctx: Context.Context
    const db: Database
    const tagger: Tagger
    const managedTypes: set<string>
    const timestamp: string
    var failures: map<string, DeploymentFailure>

    constructor (ctx: Context.Context, db: Database, tagger: Tagger, managedTypes: set<string>, timestamp: string)
      ensures this.ctx == ctx && this.db == db && this.tagger == tagger
      ensures this.managedTypes == managedTypes && this.timestamp == timestamp
      ensures failures == map[]
    {
      this.ctx := ctx;
      this.db := db;
      this.tagger := tagger;
      this.managedTypes := managedTypes;
      this.timestamp := timestamp;
      failures := map[];
    }

    function Setting(): Env
    {
      Env(db.oracle, tagger, managedTypes, timestamp)
    }

    function State(): RunState
      reads this, ctx, db
    {
      RunState(ctx.checkpoints, ctx.data, failures, db.log, ctx.finished)
    }

    /** `deploy_script_with_conflict_strategy`. */
    method DeployScript(script: string, odb: Option<string>, oname: Option<string>, otype: Option<string>,
                        ifExists: Option<string>, dryRun: bool) returns (r: Result<(), Error>)
      modifies db
      ensures (r, db.log) == ScriptOutcome(Setting(), old(db.log), script, odb, oname, otype, ifExists, dryRun)
    {
      var errs := CheckArguments(odb, oname, otype, ifExists);
      if errs != [] {
        return Err(OperationsError(Join(errs, "\n")));
      }

      var statements: seq<string>;
      if otype == Some(PROCEDURE) {
        statements := [script];
      } else {
        var tokens := Tokenizer.TokenizeStatements(script, SEMICOLON);
        if tokens.Err? {
          return Err(ParsingError(tokens.error));
        }
        statements := tokens.value;
      }
      statements := Expand(tagger, statements);
      assert ScriptStatements(tagger, script, otype) == Ok(statements);

      if dryRun {
        return Ok(());
      }
      r := SendScript(statements, odb, oname, otype, ifExists);
    }

    /** The argument checks of `deploy_script_with_conflict_strategy`, every
        complaint collected before any is reported. */
    method CheckArguments(odb: Option<string>, oname: Option<string>, otype: Option<string>,
                          ifExists: Option<string>) returns (errs: seq<string>)
      ensures errs == ScriptErrors(odb, oname, otype, ifExists, managedTypes)
    {
      errs := [];
      if ifExists.Some? {
        if ifExists.value !in STRATEGIES {
          errs := errs + [InvalidStrategyMessage(ifExists.value)];
        }
        if odb.None? {
          errs := errs + ["if_exists was given, but object_database is None"];
        }
        if oname.None? {
          errs := errs + ["if_exists was given, but object_name is None"];
        }
        if otype.Some? && otype.value !in managedTypes {
          errs := errs + ["if_exists was given, but object_type=" + Quoted(otype.value)
                          + ", expected one of the managed types"];
        }
      }
    }

    /** The requests of `deploy_script_with_conflict_strategy` once the statements
        are known and it is not a dry run. */
    method SendScript(statements: seq<string>, odb: Option<string>, oname: Option<string>,
                      otype: Option<string>, ifExists: Option<string>) returns (r: Result<(), Error>)
      modifies db
      ensures (r, db.log) == Send(Setting(), old(db.log), statements, odb, oname, otype, ifExists)
    {
      var obj: Option<IdentifiedObject> := None;
      if odb.Some? && oname.Some? {
        var found := db.GetIdentifiedObject(odb.value, oname.value);
        if found.Err? {
          return Err(found.error);
        }
        obj := found.value;
      }

      if obj.Some? {
        if ifExists == Some(RAISE_STRATEGY) {
          return Err(OperationsError(ConflictMessage(odb.value, oname.value, otype)));
        } else if ifExists == Some(DROP_STRATEGY) {
          r := db.DropIdentifiedObject(obj.value, true);
        } else if ifExists == Some(RENAME_STRATEGY) {
          r := db.RenameIdentifiedObject(obj.value, RenamedName(oname.value, timestamp), false);
        } else {
          return Err(NotImplemented("unsupported: if_exists=" + (if ifExists.Some? then Quoted(ifExists.value) else "None")));
        }
        if r.Err? {
          return r;
        }
      }

      r := db.DeployStatements(statements);
    }

    /** `deploy_file`. */
    method DeployFile(f: Entry, database: string, name: string, ifExists: Option<string>, dryRun: bool)
      returns (r: Result<(), Error>)
      modifies db
      ensures (r, db.log) == FileOutcome(Setting(), old(db.log), f, database, name, ifExists, dryRun)
    {
      if |Strip(f.text)| == 0 {
        return Err(OperationsError("empty file encountered: " + Posix(f.path)));
      }
      var otype := FsWriter.ExtToType(Suffix(Name(f.path)));
      r := DeployScript(f.text, Some(database), Some(name), otype, ifExists, dryRun);
    }

    /** One pass of the loop in `deploy_queue`: the number of files deployed (0 or 1),
        or the error that ends the loop. */
    method DeployQueued(f: Entry, ifExists: Option<string>) returns (r: Result<nat, Error>)
      modifies this, ctx, db
      ensures Outcome(r, State()) == QueueStep(Deploys(Setting(), ifExists), old(State()), f)
      ensures ctx.finished == old(ctx.finished)
    {
      ghost var deploy := Deploys(Setting(), ifExists);
      ghost var before := State();
      var chk := Posix(f.path);
      if ctx.GetCheckpoint(chk) {
        return Ok(0);
      }
      var objectName := Stem(Name(f.path));
      var objectDatabase := tagger.expandStatement(Stem(Name(Parent(f.path))));
      var outcome := DeployFile(f, objectDatabase, objectName, ifExists, false);
      assert deploy(before.log, f) == (outcome, db.log);
      if outcome.Ok? {
        ctx.SetCheckpoint(chk);
        if ctx.Contains(chk) {
          var _ := ctx.Delete(chk);
        }
        if chk in failures {
          failures := failures - {chk};
        }
        return Ok(1);
      } else if outcome.error.StatementError? {
        ctx.Put(chk, outcome.error.message);
        var fail := DeploymentFailure(Some(chk), Some(outcome.error.statement), Some(outcome.error.message));
        failures := failures[chk := fail];
        return Ok(0);
      } else {
        return Err(outcome.error);
      }
    }

    /** `deploy_queue`: the number of files deployed, or the error that stopped it. */
    method DeployQueue(files: seq<Entry>, ifExists: Option<string>) returns (r: Result<nat, Error>)
      modifies this, ctx, db
      ensures Outcome(r, State()) == Queue(Setting(), ifExists, old(State()), files)
      ensures ctx.finished == old(ctx.finished)
    {
      ghost var deploy := Deploys(Setting(), ifExists);
      ghost var goal := QueueFrom(deploy, State(), files, 0, 0);
      QueueKeepsFinished(deploy, State(), files, 0, 0);
      var deployed: nat := 0;
      for i := 0 to |files|
        invariant QueueFrom(deploy, State(), files, i, deployed) == goal
      {
        ghost var before := State();
        var one := DeployQueued(files[i], ifExists);
        assert Outcome(one, State()) == QueueStep(deploy, before, files[i]);
        if one.Err? {
          return Err(one.error);
        }
        deployed := deployed + one.value;
      }
      return Ok(deployed);
    }

    /** `deploy_env`, after the confirmation prompt: the failures of the run. */
    method DeployEnv(tree: Tree, dir: Path, ifExists: Option<string>, deleteDatabases: bool)
      returns (r: Result<map<string, DeploymentFailure>, Error>)
      modifies this, ctx, db
      ensures Outcome(r, State()) == EnvOutcome(Setting(), old(State()), tree, dir, ifExists, deleteDatabases)
      ensures ctx.finished == old(ctx.finished)
    {
      if ifExists.Some? && ifExists.value !in STRATEGIES {
        return Err(OperationsError(InvalidStrategyMessage(ifExists.value)));
      }
      var queue := SortEntries(Filter(Below(tree, dir), Queued));
      var databases := Databases(tagger, queue);
      var unexpanded := Unexpanded(databases);
      if unexpanded != [] {
        return Err(ConfigError("these databases are not expanded, check config: " + ListText(unexpanded)));
      }
      var tables := Filter(queue, IsTable);

      if deleteDatabases {
        var deleted := DeleteDatabases(databases);
        if deleted.Err? {
          return Err(deleted.error);
        }
      }

      failures := map[];
      var deployed := DeployQueue(tables, ifExists);
      if deployed.Err? {
        return Err(deployed.error);
      }
      // The wave loop for the other files starts with `deployed_cnt = -1` and runs
      // while `deployed_cnt == 0`: it never runs.
      r := Ok(failures);
    }

    /** The deletion loop of `deploy_env`: each database whose deletion is not yet
        checkpointed is deleted, then checkpointed. */
    method DeleteDatabases(databases: seq<string>) returns (r: Result<(), Error>)
      modifies ctx, db
      ensures Outcome(r, State()) == DeleteFrom(Setting(), old(State()), databases, 0)
      ensures ctx.finished == old(ctx.finished)
    {
      ghost var goal := DeleteFrom(Setting(), State(), databases, 0);
      for i := 0 to |databases|
        invariant DeleteFrom(Setting(), State(), databases, i) == goal
        invariant ctx.finished == old(ctx.finished)
      {
        var chk := DeletionKey(databases[i]);
        if ctx.GetCheckpoint(chk) {
          continue;
        }
        var deleted := db.DeleteDatabase(databases[i]);
        if deleted.Err? {
          return Err(deleted.error);
        }
        ctx.SetCheckpoint(chk);
      }
      return Ok(());
    }
  }
}
