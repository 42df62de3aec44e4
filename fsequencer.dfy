/** The step sequencer behind package deployment: a batch directory holds one
    sub-directory per step; every file below a step is deployed, in path order, and a
    file inside a further sub-directory names its default database by that
    sub-directory. */
module Fsequencer {
  import opened Wrappers
  import opened Strings
  import opened Paths
  import opened Order
  import opened Errors
  import opened FileTree
  import opened Tagging
  import Tokenizer
  import TokenizerProperties

  datatype DeploymentStatement = DeploymentStatement(sql: string)

  datatype DeploymentFile = DeploymentFile(defaultDb: Option<string>, file: Path)

  datatype DeploymentStep = DeploymentStep(name: string, location: Path, files: seq<DeploymentFile>)

  datatype DeploymentBatch = DeploymentBatch(rootDir: Path, steps: seq<DeploymentStep>)

  // ---------------------------------------------------------------- statements

  /** The statements of a file, given its text: one per statement the tokenizer finds,
      in order; a tokenizer failure surfaces as a parsing error. */
  function Statements(text: string, sep: char): (r: Result<seq<DeploymentStatement>, Error>)
  {
    match Tokenizer.Tokenize(text, sep)
    case Err(f) => Err(ParsingError(f))
    case Ok(sqls) => Ok(Wrapped(sqls))
  }

  /** One `DeploymentStatement` per SQL text, in order. */
  function Wrapped(sqls: seq<string>): seq<DeploymentStatement>
  {
    seq(|sqls|, k requires 0 <= k < |sqls| => DeploymentStatement(sqls[k]))
  }

  /** `DeploymentFile.statements()`: the generator, over the text it reads. */
  method FileStatements(text: string, sep: char) returns (r: Result<seq<DeploymentStatement>, Error>)
    ensures r == Statements(text, sep)
  {
    var sqls := Tokenizer.TokenizeStatements(text, sep);
    if sqls.Err? {
      return Err(ParsingError(sqls.error));
    }
    var out := WrapAll(sqls.value);
    return Ok(out);
  }

  /** The loop of the generator: each SQL text the tokenizer yields, wrapped. */
  method WrapAll(sqls: seq<string>) returns (out: seq<DeploymentStatement>)
    ensures |out| == |sqls| && forall k :: 0 <= k < |sqls| ==> out[k].sql == sqls[k]
    ensures out == Wrapped(sqls)
  {
    out := [];
    for i := 0 to |sqls|
      invariant out == Wrapped(sqls[..i])
    {
      assert sqls[..i + 1] == sqls[..i] + [sqls[i]];
      out := out + [DeploymentStatement(sqls[i])];
    }
    assert sqls[..|sqls|] == sqls;
  }

  /** A file that is blank yields no statement, and one that is not yields at least
      one or fails; every statement yielded is non-empty and carries no surrounding
      whitespace. */
  lemma StatementsShape(text: string, sep: char)
    requires !IsSpace(sep)
    ensures Statements(text, sep) == Ok([]) <==> AllSpace(text)
    ensures Statements(text, sep).Ok? ==>
      forall s :: s in Statements(text, sep).value ==>
        s.sql != [] && !IsSpace(s.sql[0]) && !IsSpace(s.sql[|s.sql| - 1])
  {
    TokenizerProperties.TokenizeBlank(text, sep);
    match Tokenizer.Tokenize(text, sep)
    case Err(_) =>
    case Ok(sqls) =>
      var cuts := TokenizerProperties.TokenizeSlices(text, sep, sqls);
      var r := Statements(text, sep).value;
      forall s | s in r ensures s.sql != [] && !IsSpace(s.sql[0]) && !IsSpace(s.sql[|s.sql| - 1]) {
        var k :| 0 <= k < |r| && r[k] == s;
        assert s.sql == sqls[k];
      }
  }

  // ---------------------------------------------------------------- scanning the root

  /** The complaint about an entry of the batch directory that is not a directory. */
  function EntryMessage(e: Entry): string
  {
    if e.kind == File then "- unexpected file: " + Posix(e.path)
    else "- unexpected object: " + Posix(e.path)
  }

  /** The step a directory of the batch opens, still without files. */
  function OpenStep(e: Entry): DeploymentStep
  {
    DeploymentStep(Name(e.path), e.path, [])
  }

  /** The complaints of the scan of `entries`: one per entry that is not a
      directory, and nothing else. */
  function ScanErrors(entries: seq<Entry>): (r: seq<string>)
    ensures forall e :: e in entries && e.kind != Directory ==> EntryMessage(e) in r
    ensures forall m :: m in r ==> exists e :: e in entries && e.kind != Directory && m == EntryMessage(e)
  {
    if entries == [] then []
    else
      var n := |entries| - 1;
      assert entries == entries[..n] + [entries[n]];
      ScanErrors(entries[..n]) + (if entries[n].kind == Directory then [] else [EntryMessage(entries[n])])
  }

  /** The steps of the scan of `entries`: one per directory, and nothing else. */
  function ScanSteps(entries: seq<Entry>): (r: seq<DeploymentStep>)
    ensures |r| <= |entries|
    ensures forall e :: e in entries && e.kind == Directory ==> OpenStep(e) in r
    ensures forall s :: s in r ==> exists e :: e in entries && e.kind == Directory && s == OpenStep(e)
  {
    if entries == [] then []
    else
      var n := |entries| - 1;
      assert entries == entries[..n] + [entries[n]];
      ScanSteps(entries[..n]) + (if entries[n].kind == Directory then [OpenStep(entries[n])] else [])
  }

  /** `a` comes no later than `b` by location. */
  predicate StepLe(a: DeploymentStep, b: DeploymentStep)
  {
    !PathLess(b.location, a.location)
  }

  /** The steps opened before the last entry come no later than it. */
  lemma ScanStepsBefore(entries: seq<Entry>)
    requires entries != [] && Sorted(entries, EntryLe)
    ensures var n := |entries| - 1;
      forall k :: 0 <= k < |ScanSteps(entries[..n])| ==> StepLe(ScanSteps(entries[..n])[k], OpenStep(entries[n]))
  {
    var n := |entries| - 1;
    var prefix := ScanSteps(entries[..n]);
    forall k | 0 <= k < |prefix| ensures StepLe(prefix[k], OpenStep(entries[n])) {
      assert prefix[k] in prefix;
      var e :| e in entries[..n] && e.kind == Directory && prefix[k] == OpenStep(e);
      var j :| 0 <= j < n && entries[..n][j] == e;
      assert EntryLe(entries[j], entries[n]);
    }
  }

  /** The steps come out in the order of the directories they were opened for. */
  lemma {:induction false} ScanStepsOrdered(entries: seq<Entry>)
    requires Sorted(entries, EntryLe)
    ensures Sorted(ScanSteps(entries), StepLe)
  {
    if entries != [] {
      var n := |entries| - 1;
      assert Sorted(entries[..n], EntryLe);
      ScanStepsOrdered(entries[..n]);
      var prefix := ScanSteps(entries[..n]);
      if entries[n].kind == Directory {
        var last := OpenStep(entries[n]);
        ScanStepsBefore(entries);
        SortedSnoc(prefix, last, StepLe);
        assert ScanSteps(entries) == prefix + [last];
      } else {
        assert ScanSteps(entries) == prefix;
      }
    }
  }

  // ---------------------------------------------------------------- files of a step

  /** The default database of a file found below a step directory: none for a file
      directly inside it, else the name of the folder holding the file, tagged when a
      tagger is given. */
  function FileDatabase(loc: Path, tagger: Option<Tagger>, p: Path): Option<string>
  {
    if Parent(p) == loc then None
    else if tagger.Some? then Some(tagger.value.tagDatabase(Name(Parent(p))))
    else Some(Name(Parent(p)))
  }

  /** The rule for default databases, in terms of where the file lies. */
  lemma FileDatabaseRule(loc: Path, tagger: Option<Tagger>, p: Path)
    requires loc != [] && IsBelow(p, loc)
    ensures FileDatabase(loc, tagger, p).None? <==> IsChild(p, loc)
    ensures !IsChild(p, loc) && tagger.None? ==> FileDatabase(loc, tagger, p) == Some(p[|p| - 2])
    ensures !IsChild(p, loc) && tagger.Some? ==>
      FileDatabase(loc, tagger, p) == Some(tagger.value.tagDatabase(p[|p| - 2]))
  {
    if IsChild(p, loc) {
      assert Parent(p) == p[..|p| - 1] == loc;
    } else {
      assert |Parent(p)| == |p| - 1 != |loc|;
    }
  }

  /** The deployment file a listing entry gives. */
  function MakeFile(loc: Path, tagger: Option<Tagger>, e: Entry): DeploymentFile
  {
    DeploymentFile(FileDatabase(loc, tagger, e.path), e.path)
  }

  /** The files of a step, from its listing: one per entry that is not a directory. */
  function StepFiles(listing: seq<Entry>, loc: Path, tagger: Option<Tagger>): (r: seq<DeploymentFile>)
    ensures |r| <= |listing|
    ensures forall e :: e in listing && e.kind != Directory ==> MakeFile(loc, tagger, e) in r
    ensures forall f :: f in r ==> exists e :: e in listing && e.kind != Directory && f == MakeFile(loc, tagger, e)
  {
    if listing == [] then []
    else
      var n := |listing| - 1;
      assert listing == listing[..n] + [listing[n]];
      StepFiles(listing[..n], loc, tagger) + (if listing[n].kind == Directory then [] else [MakeFile(loc, tagger, listing[n])])
  }

  /** `a` comes no later than `b` by path. */
  predicate FileLe(a: DeploymentFile, b: DeploymentFile)
  {
    !PathLess(b.file, a.file)
  }

  /** The files come out in the order of the listing. */
  lemma {:induction false} StepFilesOrdered(listing: seq<Entry>, loc: Path, tagger: Option<Tagger>)
    requires Sorted(listing, EntryLe)
    ensures Sorted(StepFiles(listing, loc, tagger), FileLe)
  {
    if listing != [] {
      var n := |listing| - 1;
      assert Sorted(listing[..n], EntryLe);
      StepFilesOrdered(listing[..n], loc, tagger);
      var prefix := StepFiles(listing[..n], loc, tagger);
      if listing[n].kind != Directory {
        var last := MakeFile(loc, tagger, listing[n]);
        forall k | 0 <= k < |prefix| ensures FileLe(prefix[k], last) {
          assert prefix[k] in prefix;
          var e :| e in listing[..n] && e.kind != Directory && prefix[k] == MakeFile(loc, tagger, e);
          var j :| 0 <= j < n && listing[..n][j] == e;
          assert EntryLe(listing[j], listing[n]);
        }
        SortedSnoc(prefix, last, FileLe);
        assert StepFiles(listing, loc, tagger) == prefix + [last];
      } else {
        assert StepFiles(listing, loc, tagger) == prefix;
      }
    }
  }

  /** `sorted(location.rglob("*"))`. */
  function Listing(tree: Tree, loc: Path): (r: seq<Entry>)
    ensures Sorted(r, EntryLe)
    ensures forall e :: e in r <==> e in tree && IsBelow(e.path, loc)
  {
    var r := SortEntries(Below(tree, loc));
    assert forall e :: e in r <==> e in multiset(Below(tree, loc));
    r
  }

  /** A step with its files filled in. */
  function Fill(tree: Tree, tagger: Option<Tagger>, step: DeploymentStep): DeploymentStep
  {
    step.(files := StepFiles(Listing(tree, step.location), step.location, tagger))
  }

  /** Whether a step has anything to deploy. */
  predicate HasFiles(step: DeploymentStep)
  {
    |step.files| > 0
  }

  /** Every step with its files filled in, in the same order. */
  function FillAll(tree: Tree, tagger: Option<Tagger>, steps: seq<DeploymentStep>): (r: seq<DeploymentStep>)
    ensures |r| == |steps|
    ensures forall k :: 0 <= k < |steps| ==> r[k] == Fill(tree, tagger, steps[k])
  {
    if steps == [] then [] else [Fill(tree, tagger, steps[0])] + FillAll(tree, tagger, steps[1..])
  }

  /** The steps of a batch, filled and with the empty ones left out. */
  function FilledSteps(tree: Tree, tagger: Option<Tagger>, steps: seq<DeploymentStep>): seq<DeploymentStep>
  {
    Filter(FillAll(tree, tagger, steps), HasFiles)
  }

  /** The root listing, `sorted(root_dir.glob("*"))`. */
  function RootListing(tree: Tree, root: Path): (r: seq<Entry>)
    ensures Sorted(r, EntryLe)
    ensures forall e :: e in r <==> e in tree && IsChild(e.path, root)
  {
    var r := SortEntries(Children(tree, root));
    assert forall e :: e in r <==> e in multiset(Children(tree, root));
    r
  }

  /** What `create_batch` returns or raises. */
  function Batch(tree: Tree, root: Path, tagger: Option<Tagger>): Result<DeploymentBatch, Error>
  {
    var entries := RootListing(tree, root);
    var errs := ScanErrors(entries);
    if errs != [] then Err(InvalidBatch("Invalid batch structure:\n" + Join(errs, "\n")))
    else Ok(DeploymentBatch(root, FilledSteps(tree, tagger, ScanSteps(entries))))
  }

  // ---------------------------------------------------------------- create_batch

  /** The files of one step from its sorted listing: the inner loop of `create_batch`. */
  method CollectFiles(listing: seq<Entry>, loc: Path, tagger: Option<Tagger>) returns (files: seq<DeploymentFile>)
    ensures files == StepFiles(listing, loc, tagger)
  {
    files := [];
    for i := 0 to |listing|
      invariant files == StepFiles(listing[..i], loc, tagger)
    {
      var f := listing[i];
      assert listing[..i + 1][..i] == listing[..i];
      if f.kind == Directory {
        continue;
      }
      var db: Option<string>;
      if Parent(f.path) == loc {
        db := None;
      } else {
        db := Some(Name(Parent(f.path)));
      }
      if tagger.Some? && db.Some? {
        db := Some(tagger.value.tagDatabase(db.value));
      }
      files := files + [DeploymentFile(db, f.path)];
    }
    assert listing[..|listing|] == listing;
  }

  /** The first loop of `create_batch`: one complaint per entry of the root that is
      not a directory, one empty step per directory. */
  method ScanRoot(entries: seq<Entry>) returns (errs: seq<string>, steps: seq<DeploymentStep>)
    ensures errs == ScanErrors(entries) && steps == ScanSteps(entries)
  {
    errs, steps := [], [];
    for i := 0 to |entries|
      invariant errs == ScanErrors(entries[..i])
      invariant steps == ScanSteps(entries[..i])
    {
      var d := entries[i];
      assert entries[..i + 1][..i] == entries[..i];
      if d.kind == File {
        errs := errs + ["- unexpected file: " + Posix(d.path)];
        continue;
      }
      if d.kind != Directory {
        errs := errs + ["- unexpected object: " + Posix(d.path)];
        continue;
      }
      steps := steps + [DeploymentStep(Name(d.path), d.path, [])];
    }
    assert entries[..|entries|] == entries;
  }

  /** The second loop of `create_batch`: every step gets the files below it. */
  method FillFiles(tree: Tree, tagger: Option<Tagger>, scanned: seq<DeploymentStep>) returns (steps: seq<DeploymentStep>)
    ensures steps == FillAll(tree, tagger, scanned)
  {
    steps := scanned;
    for k := 0 to |steps|
      invariant |steps| == |scanned|
      invariant forall j :: 0 <= j < k ==> steps[j] == Fill(tree, tagger, scanned[j])
      invariant forall j :: k <= j < |steps| ==> steps[j] == scanned[j]
    {
      var files := CollectFiles(Listing(tree, steps[k].location), steps[k].location, tagger);
      steps := steps[k := steps[k].(files := files)];
    }
  }

  /** `create_batch`: scan the root, refuse stray entries, fill every step, drop the
      empty ones. */
  method CreateBatch(tree: Tree, root: Path, tagger: Option<Tagger>) returns (r: Result<DeploymentBatch, Error>)
    ensures r == Batch(tree, root, tagger)
  {
    var entries := RootListing(tree, root);
    var errs, steps := ScanRoot(entries);
    if |errs| > 0 {
      return Err(InvalidBatch("Invalid batch structure:\n" + Join(errs, "\n")));
    }
    steps := FillFiles(tree, tagger, steps);
    steps := Filter(steps, HasFiles);
    return Ok(DeploymentBatch(root, steps));
  }

  // ---------------------------------------------------------------- properties

  /** A batch is refused exactly when its root holds something that is not a
      directory, and the refusal names every such entry. */
  lemma BatchRefusesStrayEntries(tree: Tree, root: Path, tagger: Option<Tagger>)
    ensures Batch(tree, root, tagger).Err? <==>
      exists e :: e in tree && IsChild(e.path, root) && e.kind != Directory
    ensures Batch(tree, root, tagger).Err? ==>
      Batch(tree, root, tagger).error.InvalidBatch? &&
      forall e :: e in tree && IsChild(e.path, root) && e.kind != Directory ==>
        EntryMessage(e) in ScanErrors(RootListing(tree, root))
  {
    var errs := ScanErrors(RootListing(tree, root));
    if errs != [] {
      assert errs[0] in errs;
    }
    if exists e :: e in tree && IsChild(e.path, root) && e.kind != Directory {
      var e :| e in tree && IsChild(e.path, root) && e.kind != Directory;
      assert EntryMessage(e) in errs;
    }
  }

  /** Every step filling keeps has files and is the filling of a scanned step. */
  lemma FilledStepsFrom(tree: Tree, tagger: Option<Tagger>, scanned: seq<DeploymentStep>)
    ensures forall s :: s in FilledSteps(tree, tagger, scanned) ==>
      HasFiles(s) && exists t :: t in scanned && s == Fill(tree, tagger, t)
  {
    var filled := FillAll(tree, tagger, scanned);
    forall s | s in Filter(filled, HasFiles)
      ensures HasFiles(s) && exists t :: t in scanned && s == Fill(tree, tagger, t)
    {
      var k :| 0 <= k < |filled| && filled[k] == s;
      assert scanned[k] in scanned;
    }
  }

  /** Every scanned step whose filling has files is kept. */
  lemma FilledStepsKeepAll(tree: Tree, tagger: Option<Tagger>, scanned: seq<DeploymentStep>)
    ensures forall t :: t in scanned && HasFiles(Fill(tree, tagger, t)) ==>
      Fill(tree, tagger, t) in FilledSteps(tree, tagger, scanned)
  {
    var filled := FillAll(tree, tagger, scanned);
    forall t | t in scanned && HasFiles(Fill(tree, tagger, t))
      ensures Fill(tree, tagger, t) in Filter(filled, HasFiles)
    {
      var k :| 0 <= k < |scanned| && scanned[k] == t;
      assert filled[k] == Fill(tree, tagger, t);
    }
  }

  /** Filling keeps the order of the steps it keeps. */
  lemma FilledStepsOrdered(tree: Tree, tagger: Option<Tagger>, scanned: seq<DeploymentStep>)
    requires Sorted(scanned, StepLe)
    ensures Sorted(FilledSteps(tree, tagger, scanned), StepLe)
  {
    var filled := FillAll(tree, tagger, scanned);
    assert Sorted(filled, StepLe) by {
      forall i, j | 0 <= i < j < |filled| ensures StepLe(filled[i], filled[j]) {
        assert StepLe(scanned[i], scanned[j]);
      }
    }
    FilterSorted(filled, HasFiles, StepLe);
  }

  /** Filling keeps every step that has files, drops the others, and keeps the order
      of what it keeps. */
  lemma FilledStepsKeep(tree: Tree, tagger: Option<Tagger>, scanned: seq<DeploymentStep>)
    ensures forall s :: s in FilledSteps(tree, tagger, scanned) ==>
      HasFiles(s) && exists t :: t in scanned && s == Fill(tree, tagger, t)
    ensures forall t :: t in scanned && HasFiles(Fill(tree, tagger, t)) ==>
      Fill(tree, tagger, t) in FilledSteps(tree, tagger, scanned)
    ensures Sorted(scanned, StepLe) ==> Sorted(FilledSteps(tree, tagger, scanned), StepLe)
  {
    FilledStepsFrom(tree, tagger, scanned);
    FilledStepsKeepAll(tree, tagger, scanned);
    if Sorted(scanned, StepLe) {
      FilledStepsOrdered(tree, tagger, scanned);
    }
  }

  /** An accepted batch holds one step per directory of its root that has files
      below it, named after the directory, in path order, each holding that
      directory's files. */
  lemma BatchSteps(tree: Tree, root: Path, tagger: Option<Tagger>)
    requires Batch(tree, root, tagger).Ok?
    ensures Batch(tree, root, tagger).value.rootDir == root
    ensures forall s :: s in Batch(tree, root, tagger).value.steps ==>
      && HasFiles(s)
      && s.name == Name(s.location)
      && s.files == StepFiles(Listing(tree, s.location), s.location, tagger)
      && exists e :: e in tree && IsChild(e.path, root) && e.kind == Directory && e.path == s.location
    ensures forall e ::
      (e in tree && IsChild(e.path, root) && e.kind == Directory &&
       StepFiles(Listing(tree, e.path), e.path, tagger) != []) ==>
        Fill(tree, tagger, OpenStep(e)) in Batch(tree, root, tagger).value.steps
    ensures Sorted(Batch(tree, root, tagger).value.steps, StepLe)
  {
    var entries := RootListing(tree, root);
    var scanned := ScanSteps(entries);
    FilledStepsKeep(tree, tagger, scanned);
    ScanStepsOrdered(entries);
  }

  /** The files made from a sorted listing below a step directory are in path order,
      each is an entry of the listing that is not a directory, and each takes its
      default database from where it lies. */
  lemma StepFilesRule(listing: seq<Entry>, loc: Path, tagger: Option<Tagger>)
    requires loc != [] && Sorted(listing, EntryLe)
    requires forall e :: e in listing ==> IsBelow(e.path, loc)
    ensures Sorted(StepFiles(listing, loc, tagger), FileLe)
    ensures forall f :: f in StepFiles(listing, loc, tagger) ==>
      && (exists e :: e in listing && e.kind != Directory && e.path == f.file)
      && IsBelow(f.file, loc)
      && (f.defaultDb.None? <==> IsChild(f.file, loc))
      && (!IsChild(f.file, loc) && tagger.None? ==> f.defaultDb == Some(f.file[|f.file| - 2]))
      && (!IsChild(f.file, loc) && tagger.Some? ==>
            f.defaultDb == Some(tagger.value.tagDatabase(f.file[|f.file| - 2])))
  {
    StepFilesOrdered(listing, loc, tagger);
    forall f | f in StepFiles(listing, loc, tagger)
      ensures (exists e :: e in listing && e.kind != Directory && e.path == f.file) && IsBelow(f.file, loc)
      ensures f.defaultDb == FileDatabase(loc, tagger, f.file)
    {
      var e :| e in listing && e.kind != Directory && f == MakeFile(loc, tagger, e);
    }
    forall f | f in StepFiles(listing, loc, tagger) {
      FileDatabaseRule(loc, tagger, f.file);
    }
  }

  /** Every file of an accepted batch lies below its step, is not a directory, and
      takes its default database from where it lies; the files of a step are in path
      order. */
  lemma BatchFiles(tree: Tree, root: Path, tagger: Option<Tagger>, s: DeploymentStep)
    requires Batch(tree, root, tagger).Ok?
    requires s in Batch(tree, root, tagger).value.steps
    ensures Sorted(s.files, FileLe)
    ensures forall f :: f in s.files ==>
      && (exists e :: e in tree && e.kind != Directory && e.path == f.file)
      && IsBelow(f.file, s.location)
      && (f.defaultDb.None? <==> IsChild(f.file, s.location))
      && (!IsChild(f.file, s.location) && tagger.None? ==> f.defaultDb == Some(f.file[|f.file| - 2]))
      && (!IsChild(f.file, s.location) && tagger.Some? ==>
            f.defaultDb == Some(tagger.value.tagDatabase(f.file[|f.file| - 2])))
  {
    BatchSteps(tree, root, tagger);
    var listing := Listing(tree, s.location);
    assert s.location != [] by {
      var e :| e in tree && IsChild(e.path, root) && e.kind == Directory && e.path == s.location;
    }
    StepFilesRule(listing, s.location, tagger);
  }
}
