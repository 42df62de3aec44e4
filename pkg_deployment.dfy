/** Deployment of a package: the steps directory of a package is found (optionally
    ignoring the case of its components), scanned into a batch, and walked step by
    step and file by file under checkpoints kept in the run context. The statements
    of a file are not sent yet: the walk only reports which files it reaches. */
module PkgDeployment {
  import opened Wrappers
  import opened Strings
  import opened Order
  import opened Paths
  import opened Errors
  import opened FileTree
  import opened Tagging
  import opened Fsequencer
  import opened Context

  // ---------------------------------------------------------------------------
  // The directories of a path

  /** `_path_to_directories(path)`: the path's components, root first, without the
      empty ones (the root anchor and the empty path have no name). */
  function Directories(p: Path): seq<string>
  {
    if p == [] then []
    else Directories(p[..|p| - 1]) + (if p[|p| - 1] != "" then [p[|p| - 1]] else [])
  }

  /** The directories of a path are its non-empty components, in order. */
  lemma {:induction false} DirectoriesAreNamed(p: Path)
    ensures |Directories(p)| <= |p|
    ensures forall s :: s in Directories(p) <==> s in p && s != ""
  {
    if p != [] {
      var q := p[..|p| - 1];
      DirectoriesAreNamed(q);
      assert p == q + [p[|p| - 1]];
    }
  }

  /** The component list of a plain relative path is the path itself. */
  lemma {:induction false} DirectoriesOfPlain(p: Path)
    requires forall k :: 0 <= k < |p| ==> p[k] != ""
    ensures Directories(p) == p
  {
    if p != [] {
      DirectoriesOfPlain(p[..|p| - 1]);
      assert p == p[..|p| - 1] + [p[|p| - 1]];
    }
  }

  /** The directories of a path are those of its parent and then its own name, if
      it has one; a path that is its own parent has none. */
  lemma DirectoriesOfParent(p: Path)
    ensures Directories(p) == Directories(Parent(p)) + (if Name(p) != "" then [Name(p)] else [])
    ensures Parent(p) == p ==> Directories(p) == []
  {
  }

  /** `_path_to_directories`: walks from the path up through its parents until a
      path is its own parent, putting each non-empty name in front. */
  method PathToDirectories(path: Path) returns (elements: seq<string>)
    ensures elements == Directories(path)
  {
    elements := [];
    var curr := path;
    var prev: Option<Path> := None;
    while prev != Some(curr)
      invariant |curr| <= |path|
      invariant Directories(path) == Directories(curr) + elements
      invariant prev.Some? ==> Parent(prev.value) == curr
      decreases |curr| + (if prev == Some(curr) then 0 else 1)
    {
      DirectoriesOfParent(curr);
      ghost var before := curr;
      if Name(curr) != "" {
        elements := [Name(curr)] + elements;
      }
      prev := Some(curr);
      curr := Parent(curr);
      assert |curr| < |before| || curr == before;
    }
    DirectoriesOfParent(curr);
  }

  // ---------------------------------------------------------------------------
  // Case-insensitive search for the steps directory

  /** The name of the first entry, in listing order, whose lower-cased name is
      `wanted`. */
  function FirstNamed(children: seq<Entry>, wanted: string): Option<string>
  {
    if children == [] then None
    else if Lower(Name(children[0].path)) == wanted then Some(Name(children[0].path))
    else FirstNamed(children[1..], wanted)
  }

  /** The search for a name fails only when no entry carries it, and otherwise
      yields the name of the first entry that does. */
  lemma {:induction false} FirstNamedFinds(children: seq<Entry>, wanted: string)
    ensures FirstNamed(children, wanted).None? <==>
      forall k :: 0 <= k < |children| ==> Lower(Name(children[k].path)) != wanted
    ensures FirstNamed(children, wanted).Some? ==>
      exists k :: 0 <= k < |children| && FirstOf(children, wanted, k) &&
        FirstNamed(children, wanted).value == Name(children[k].path)
  {
    if children != [] && Lower(Name(children[0].path)) != wanted {
      var rest := children[1..];
      FirstNamedFinds(rest, wanted);
      assert forall k :: 0 < k < |children| ==> children[k] == rest[k - 1];
      if FirstNamed(rest, wanted).Some? {
        var k :| 0 <= k < |rest| && FirstOf(rest, wanted, k) && FirstNamed(rest, wanted).value == Name(rest[k].path);
        assert FirstOf(children, wanted, k + 1);
      }
    } else if children != [] {
      assert FirstOf(children, wanted, 0);
    }
  }

  /** Entry `k` is the first whose lower-cased name is `wanted`. */
  predicate FirstOf(children: seq<Entry>, wanted: string, k: int)
    requires 0 <= k < |children|
  {
    && Lower(Name(children[k].path)) == wanted
    && forall j :: 0 <= j < k ==> Lower(Name(children[j].path)) != wanted
  }

  predicate IsDirEntry(e: Entry)
  {
    e.kind == Directory
  }

  /** The children that the search looks at: `root.glob("*")` filtered by
      `if d.is_dir`. The code tests the method object, which is always true, so
      every child is a candidate (`dirsOnly == false`); the evidently intended call
      `d.is_dir()` keeps only directories (`dirsOnly == true`). */
  function Candidates(tree: Tree, root: Path, dirsOnly: bool): (r: seq<Entry>)
    ensures forall e :: e in r ==> e in tree && IsChild(e.path, root)
    ensures dirsOnly ==> forall e :: e in r ==> e.kind == Directory
  {
    if dirsOnly then Filter(Children(tree, root), IsDirEntry) else Children(tree, root)
  }

  /** The names the search finds from component `i` on, starting at `root`. */
  function SearchRest(tree: Tree, root: Path, wanted: seq<string>, i: nat, dirsOnly: bool): Option<seq<string>>
    requires i <= |wanted|
    decreases |wanted| - i
  {
    if i == |wanted| then Some([])
    else match FirstNamed(Candidates(tree, root, dirsOnly), wanted[i])
      case None => None
      case Some(name) =>
        match SearchRest(tree, root + [name], wanted, i + 1, dirsOnly)
        case None => None
        case Some(rest) => Some([name] + rest)
  }

  /** `[s.lower() for s in names]`. */
  function LowerAll(names: seq<string>): (r: seq<string>)
    ensures |r| == |names|
  {
    if names == [] then [] else [Lower(names[0])] + LowerAll(names[1..])
  }

  /** `case_insensitive_search(root, subdir)`: for each component of `subdir`, the
      first child of the directory reached whose lower-cased name is the lower-cased
      component; `None` as soon as one is missing. */
  function Search(tree: Tree, root: Path, subdir: Path, dirsOnly: bool): Option<seq<string>>
  {
    SearchRest(tree, root, LowerAll(Directories(subdir)), 0, dirsOnly)
  }

  /** The tree holds an entry at `root + rel`; a directory when `dirsOnly`. */
  predicate Reaches(tree: Tree, root: Path, rel: seq<string>, dirsOnly: bool)
  {
    exists e :: e in tree && e.path == root + rel && (dirsOnly ==> e.kind == Directory)
  }

  /** The first entry carrying a name is one of the entries. */
  lemma {:induction false} FirstNamedIn(children: seq<Entry>, wanted: string)
    requires FirstNamed(children, wanted).Some?
    ensures exists e :: e in children && Name(e.path) == FirstNamed(children, wanted).value && Lower(Name(e.path)) == wanted
  {
    if Lower(Name(children[0].path)) != wanted {
      FirstNamedIn(children[1..], wanted);
      var e :| e in children[1..] && Name(e.path) == FirstNamed(children, wanted).value && Lower(Name(e.path)) == wanted;
      assert e in children;
    }
  }

  /** The name found is the wanted one, ignoring case. */
  lemma {:induction false} FirstNamedLower(children: seq<Entry>, wanted: string)
    requires FirstNamed(children, wanted).Some?
    ensures Lower(FirstNamed(children, wanted).value) == wanted
  {
    if Lower(Name(children[0].path)) != wanted {
      FirstNamedLower(children[1..], wanted);
    }
  }

  /** One level of the search: the tree holds an entry with the name found under
      the root. */
  lemma FoundEntry(tree: Tree, root: Path, wanted: string, dirsOnly: bool)
    requires FirstNamed(Candidates(tree, root, dirsOnly), wanted).Some?
    ensures Reaches(tree, root, [FirstNamed(Candidates(tree, root, dirsOnly), wanted).value], dirsOnly)
  {
    var cands := Candidates(tree, root, dirsOnly);
    var name := FirstNamed(cands, wanted).value;
    FirstNamedIn(cands, wanted);
    var e :| e in cands && Name(e.path) == name && Lower(name) == wanted;
    assert e in tree && (dirsOnly ==> e.kind == Directory);
    ChildPath(e.path, root);
  }

  /** A child of `root` is `root` with its name appended. */
  lemma ChildPath(p: Path, root: Path)
    requires IsChild(p, root)
    ensures p == root + [Name(p)]
  {
    assert p == p[..|root|] + [p[|root|]];
  }

  /** An entry reached below `root + [name]` is reached below `root`. */
  lemma ReachesShift(tree: Tree, root: Path, name: string, rel: seq<string>, dirsOnly: bool)
    requires Reaches(tree, root + [name], rel, dirsOnly)
    ensures Reaches(tree, root, [name] + rel, dirsOnly)
  {
    assert root + [name] + rel == root + ([name] + rel);
  }

  /** What the search finds matches the wanted components one for one, ignoring
      case. */
  lemma {:induction false} SearchRestMatches(tree: Tree, root: Path, wanted: seq<string>, i: nat, dirsOnly: bool)
    requires i <= |wanted|
    requires SearchRest(tree, root, wanted, i, dirsOnly).Some?
    ensures LowerAll(SearchRest(tree, root, wanted, i, dirsOnly).value) == wanted[i..]
    decreases |wanted| - i
  {
    if i < |wanted| {
      var name := FirstNamed(Candidates(tree, root, dirsOnly), wanted[i]).value;
      FirstNamedLower(Candidates(tree, root, dirsOnly), wanted[i]);
      SearchRestMatches(tree, root + [name], wanted, i + 1, dirsOnly);
      var rest := SearchRest(tree, root + [name], wanted, i + 1, dirsOnly).value;
      assert ([name] + rest)[1..] == rest;
      assert wanted[i..] == [wanted[i]] + wanted[i + 1..];
    }
  }

  /** Each prefix of what the search finds names an entry of the tree; with
      directories only, each of those entries is a directory. */
  lemma {:induction false} SearchRestReaches(tree: Tree, root: Path, wanted: seq<string>, i: nat, dirsOnly: bool)
    requires i <= |wanted|
    requires SearchRest(tree, root, wanted, i, dirsOnly).Some?
    ensures var r := SearchRest(tree, root, wanted, i, dirsOnly).value;
      forall k :: 0 < k <= |r| ==> Reaches(tree, root, r[..k], dirsOnly)
    decreases |wanted| - i
  {
    if i < |wanted| {
      var name := FirstNamed(Candidates(tree, root, dirsOnly), wanted[i]).value;
      FoundEntry(tree, root, wanted[i], dirsOnly);
      SearchRestReaches(tree, root + [name], wanted, i + 1, dirsOnly);
      var rest := SearchRest(tree, root + [name], wanted, i + 1, dirsOnly).value;
      var r := [name] + rest;
      forall k | 0 < k <= |r| ensures Reaches(tree, root, r[..k], dirsOnly) {
        if k > 1 {
          assert r[..k] == [name] + rest[..k - 1];
          ReachesShift(tree, root, name, rest[..k - 1], dirsOnly);
        } else {
          assert r[..k] == [name];
        }
      }
    }
  }

  /** A package holding a file `STEPS` listed before a directory `steps`. */
  function StrayFile(): Tree
  {
    [Entry(["", "pkg", "STEPS"], File, "x"), Entry(["", "pkg", "steps"], Directory, "")]
  }

  lemma StrayFileChildren()
    ensures Children(StrayFile(), ["", "pkg"]) == StrayFile()
  {
    var t := StrayFile();
    assert IsChild(t[0].path, ["", "pkg"]) && IsChild(t[1].path, ["", "pkg"]);
    assert t[1..][1..] == [];
  }

  lemma StrayFileDirectories()
    ensures Filter(StrayFile(), IsDirEntry) == [StrayFile()[1]]
  {
    assert StrayFile()[1..][1..] == [];
  }

  lemma LowerSteps()
    ensures Lower("STEPS") == "steps" && Lower("steps") == "steps"
  {
    LowerChars("STEPS");
    LowerChars("steps");
  }

  lemma WantedSteps()
    ensures LowerAll(Directories(["steps"])) == ["steps"]
  {
    DirectoriesOfPlain(["steps"]);
    LowerSteps();
  }

  /** The search that the code performs can pick a file: looking for `steps` in the
      package above finds the file `STEPS`, the deployment then stops with
      "directory not found", while the search restricted to directories finds the
      directory `steps`. */
  lemma SearchMatchesFiles()
    ensures Search(StrayFile(), ["", "pkg"], ["steps"], false) == Some(["STEPS"])
    ensures !IsDir(StrayFile(), JoinPath(["", "pkg"], ["STEPS"]))
    ensures Search(StrayFile(), ["", "pkg"], ["steps"], true) == Some(["steps"])
  {
    StrayFileSearch(false);
    StrayFileSearch(true);
    StrayFileIsFile();
  }

  lemma StrayFileIsFile()
    ensures !IsDir(StrayFile(), JoinPath(["", "pkg"], ["STEPS"]))
  {
    var t := StrayFile();
    assert JoinPath(["", "pkg"], ["STEPS"]) == t[0].path;
    assert t[1].path != t[0].path by {
      assert t[1].path[2] != t[0].path[2];
    }
  }

  lemma StrayFileFirst()
    ensures FirstNamed(StrayFile(), "steps") == Some("STEPS")
    ensures FirstNamed([StrayFile()[1]], "steps") == Some("steps")
  {
    LowerSteps();
    assert Name(StrayFile()[0].path) == "STEPS";
    assert Name(StrayFile()[1].path) == "steps";
  }

  lemma StrayFileSearch(dirsOnly: bool)
    ensures Search(StrayFile(), ["", "pkg"], ["steps"], dirsOnly) == Some([if dirsOnly then "steps" else "STEPS"])
  {
    var t := StrayFile();
    var name := if dirsOnly then "steps" else "STEPS";
    WantedSteps();
    StrayFileChildren();
    StrayFileDirectories();
    StrayFileFirst();
    if dirsOnly {
      assert Candidates(t, ["", "pkg"], dirsOnly) == [t[1]];
    } else {
      assert Candidates(t, ["", "pkg"], dirsOnly) == t;
    }
    SearchOneLevel(t, ["", "pkg"], "steps", dirsOnly);
  }

  /** Looking for a single component finds the first candidate carrying it. */
  lemma SearchOneLevel(tree: Tree, root: Path, wanted: string, dirsOnly: bool)
    ensures SearchRest(tree, root, [wanted], 0, dirsOnly) ==
      match FirstNamed(Candidates(tree, root, dirsOnly), wanted)
      case None => None
      case Some(name) => Some([name])
  {
    assert [wanted][0] == wanted;
    var hit := FirstNamed(Candidates(tree, root, dirsOnly), wanted);
    if hit.Some? {
      assert SearchRest(tree, root + [hit.value], [wanted], 1, dirsOnly) == Some([]);
      assert [hit.value] + [] == [hit.value];
    }
  }

  /** The search restricted to directories, as evidently intended, only ever finds
      directories: every prefix of its result below the root is a directory. */
  lemma SearchFindsDirectories(tree: Tree, root: Path, subdir: Path)
    requires Search(tree, root, subdir, true).Some?
    ensures var r := Search(tree, root, subdir, true).value;
      && LowerAll(r) == LowerAll(Directories(subdir))
      && forall k :: 0 < k <= |r| ==> IsDir(tree, root + r[..k])
  {
    var w := LowerAll(Directories(subdir));
    SearchRestMatches(tree, root, w, 0, true);
    SearchRestReaches(tree, root, w, 0, true);
    var r := Search(tree, root, subdir, true).value;
    forall k | 0 < k <= |r| ensures IsDir(tree, root + r[..k]) {
      assert Reaches(tree, root, r[..k], true);
    }
  }

  /** The names found so far in front of those still to be found. */
  function Prepend(found: seq<string>, rest: Option<seq<string>>): Option<seq<string>>
  {
    match rest
    case None => None
    case Some(r) => Some(found + r)
  }

  /** One turn of the search loop moves the name found from the rest of the search to
      the names found. */
  lemma SearchRestStep(tree: Tree, cur: Path, wanted: seq<string>, i: nat, found: seq<string>, name: string)
    requires i < |wanted|
    requires FirstNamed(Candidates(tree, cur, false), wanted[i]) == Some(name)
    ensures Prepend(found, SearchRest(tree, cur, wanted, i, false)) ==
      Prepend(found + [name], SearchRest(tree, cur + [name], wanted, i + 1, false))
  {
    var rest := SearchRest(tree, cur + [name], wanted, i + 1, false);
    if rest.Some? {
      assert found + ([name] + rest.value) == found + [name] + rest.value;
    }
  }

  /** The inner loop of `case_insensitive_search`: the first child whose lower-cased
      name is the wanted one. */
  method FindNamed(children: seq<Entry>, wanted: string) returns (hit: Option<string>)
    ensures hit == FirstNamed(children, wanted)
  {
    hit := None;
    var k := 0;
    while k < |children| && hit.None?
      invariant k <= |children|
      invariant hit.None? ==> FirstNamed(children, wanted) == FirstNamed(children[k..], wanted)
      invariant hit.Some? ==> hit == FirstNamed(children, wanted)
    {
      var name := Name(children[k].path);
      if Lower(name) == wanted {
        hit := Some(name);
      } else {
        assert children[k..][1..] == children[k + 1..];
      }
      k := k + 1;
    }
  }

  /** `case_insensitive_search`, as the code does it: every child is a candidate. */
  method CaseInsensitiveSearch(tree: Tree, root: Path, subdir: Path) returns (r: Option<seq<string>>)
    ensures r == Search(tree, root, subdir, false)
  {
    var dirs := PathToDirectories(subdir);
    var wanted := LowerAll(dirs);
    var whole := SearchRest(tree, root, wanted, 0, false);
    assert whole.Some? ==> [] + whole.value == whole.value;
    var found: seq<string> := [];
    var cur := root;
    var i := 0;
    while i < |wanted|
      invariant i <= |wanted|
      invariant Search(tree, root, subdir, false) == Prepend(found, SearchRest(tree, cur, wanted, i, false))
    {
      var hit := FindNamed(Children(tree, cur), wanted[i]);
      if hit.None? {
        assert Candidates(tree, cur, false) == Children(tree, cur);
        assert SearchRest(tree, cur, wanted, i, false) == None;
        return None;
      }
      SearchRestStep(tree, cur, wanted, i, found, hit.value);
      found := found + [hit.value];
      cur := cur + [hit.value];
      i := i + 1;
    }
    assert found + [] == found;
    r := Some(found);
  }

  // ---------------------------------------------------------------------------
  // The checkpoint walk

  /** The checkpoint of a step: its location. */
  function StepKey(step: DeploymentStep): string
  {
    Posix(step.location)
  }

  /** The checkpoint of a file of a step: the step's checkpoint, "->", the file. */
  function FileKey(step: DeploymentStep, f: DeploymentFile): string
  {
    StepKey(step) + "->" + Posix(f.file)
  }

  /** The files of a step, among `files`, that the walk reaches: those whose
      checkpoint is not set, in order. */
  function Reached(cps: set<string>, step: DeploymentStep, files: seq<DeploymentFile>): (r: seq<Path>)
    ensures |r| <= |files|
    ensures forall p :: p in r <==> exists f :: f in files && f.file == p && FileKey(step, f) !in cps
  {
    if files == [] then []
    else
      var last := files[|files| - 1];
      var r := Reached(cps, step, files[..|files| - 1]) + (if FileKey(step, last) in cps then [] else [last.file]);
      assert forall f :: f in files ==> f in files[..|files| - 1] || f == last;
      r
  }

  /** What a walk leaves behind: the checkpoints and the files it reached. */
  datatype Walked = Walked(checkpoints: set<string>, deployed: seq<Path>)

  predicate AllHaveFiles(steps: seq<DeploymentStep>)
  {
    forall s :: s in steps ==> HasFiles(s)
  }

  /** The checkpoints a step that is not skipped sets. The code sets, after the loop
      over the files, only the checkpoint of the last file (the loop variable keeps
      its last value), then the step's (`fixed == false`); the evidently intended
      code sets each file's checkpoint as it is deployed (`fixed == true`). */
  function StepSets(step: DeploymentStep, fixed: bool): (r: set<string>)
    requires HasFiles(step)
    ensures StepKey(step) in r
  {
    if fixed then (set f | f in step.files :: FileKey(step, f)) + {StepKey(step)}
    else {FileKey(step, step.files[|step.files| - 1]), StepKey(step)}
  }

  /** The walk over the steps of a batch: a step whose checkpoint is set is skipped;
      otherwise the files whose checkpoints are not set are reached and the step's
      checkpoints are set. */
  function Walk(cps: set<string>, steps: seq<DeploymentStep>, fixed: bool): Walked
    requires AllHaveFiles(steps)
    decreases |steps|
  {
    if steps == [] then Walked(cps, [])
    else
      var s := steps[0];
      if StepKey(s) in cps then Walk(cps, steps[1..], fixed)
      else
        var w := Walk(cps + StepSets(s, fixed), steps[1..], fixed);
        Walked(w.checkpoints, Reached(cps, s, s.files) + w.deployed)
  }

  /** A walk only adds checkpoints, every step's checkpoint is set at its end, and
      every checkpoint it adds is one that a step sets. */
  lemma {:induction false} WalkCheckpoints(cps: set<string>, steps: seq<DeploymentStep>, fixed: bool)
    requires AllHaveFiles(steps)
    ensures cps <= Walk(cps, steps, fixed).checkpoints
    ensures forall s :: s in steps ==> StepKey(s) in Walk(cps, steps, fixed).checkpoints
    ensures forall c :: c in Walk(cps, steps, fixed).checkpoints ==>
      c in cps || exists s :: s in steps && c in StepSets(s, fixed)
    decreases |steps|
  {
    if steps != [] {
      var s := steps[0];
      assert forall t :: t in steps ==> t == s || t in steps[1..];
      if StepKey(s) in cps {
        WalkCheckpoints(cps, steps[1..], fixed);
      } else {
        WalkCheckpoints(cps + StepSets(s, fixed), steps[1..], fixed);
      }
    }
  }

  /** After a complete walk a second walk over the same steps reaches nothing: every
      step is skipped. */
  lemma RewalkReachesNothing(cps: set<string>, steps: seq<DeploymentStep>, fixed: bool)
    requires AllHaveFiles(steps)
    ensures Walk(Walk(cps, steps, fixed).checkpoints, steps, fixed).deployed == []
  {
    var done := Walk(cps, steps, fixed).checkpoints;
    WalkCheckpoints(cps, steps, fixed);
    SkipAll(done, steps, fixed);
  }

  lemma {:induction false} SkipAll(cps: set<string>, steps: seq<DeploymentStep>, fixed: bool)
    requires AllHaveFiles(steps)
    requires forall s :: s in steps ==> StepKey(s) in cps
    ensures Walk(cps, steps, fixed) == Walked(cps, [])
    decreases |steps|
  {
    if steps != [] {
      assert steps[0] in steps;
      SkipAll(cps, steps[1..], fixed);
    }
  }

  /** The code's walk loses the checkpoint of every file but the last of a step: a
      file of a step not yet done, whose checkpoint was not set before and is not one
      that any step sets, is reached by the walk and is still unset after it. */
  lemma WalkForgetsFiles(cps: set<string>, steps: seq<DeploymentStep>, s: DeploymentStep, f: DeploymentFile)
    requires AllHaveFiles(steps) && s in steps && f in s.files
    requires forall t :: t in steps ==> StepKey(s) !in StepSets(t, false) - {StepKey(t)} && (StepKey(t) == StepKey(s) ==> t == s)
    requires StepKey(s) !in cps && FileKey(s, f) !in cps
    requires forall t :: t in steps ==> FileKey(s, f) !in StepSets(t, false)
    ensures f.file in Walk(cps, steps, false).deployed
    ensures FileKey(s, f) !in Walk(cps, steps, false).checkpoints
  {
    WalkReachesFile(cps, steps, s, f);
    WalkCheckpoints(cps, steps, false);
  }

  /** The walk as written reaches a file of a step not yet done whose checkpoint no
      step sets. */
  lemma {:induction false} WalkReachesFile(cps: set<string>, steps: seq<DeploymentStep>, s: DeploymentStep, f: DeploymentFile)
    requires AllHaveFiles(steps) && s in steps && f in s.files
    requires forall t :: t in steps ==> StepKey(s) !in StepSets(t, false) - {StepKey(t)} && (StepKey(t) == StepKey(s) ==> t == s)
    requires StepKey(s) !in cps && FileKey(s, f) !in cps
    requires forall t :: t in steps ==> FileKey(s, f) !in StepSets(t, false)
    ensures f.file in Walk(cps, steps, false).deployed
    decreases |steps|
  {
    var h := steps[0];
    if h == s {
      assert f.file in Reached(cps, s, s.files);
    } else {
      assert s in steps[1..] by {
        assert steps == [h] + steps[1..];
      }
      assert h in steps;
      if StepKey(h) in cps {
        WalkReachesFile(cps, steps[1..], s, f);
      } else {
        assert StepKey(s) !in StepSets(h, false);
        WalkReachesFile(cps + StepSets(h, false), steps[1..], s, f);
      }
    }
  }

  /** With the checkpoint set per file, every file of every step the walk does not
      skip is checkpointed afterwards, so a rerun after a failure resumes at the
      first file not deployed. */
  lemma {:induction false} FixedWalkKeepsFiles(cps: set<string>, steps: seq<DeploymentStep>, s: DeploymentStep, f: DeploymentFile)
    requires AllHaveFiles(steps) && s in steps && f in s.files
    requires forall t :: t in steps ==> StepKey(s) !in StepSets(t, true) - {StepKey(t)} && (StepKey(t) == StepKey(s) ==> t == s)
    requires StepKey(s) !in cps
    ensures FileKey(s, f) in Walk(cps, steps, true).checkpoints
    decreases |steps|
  {
    var h := steps[0];
    if h == s {
      WalkCheckpoints(cps + StepSets(s, true), steps[1..], true);
    } else {
      assert s in steps[1..] by {
        assert steps == [h] + steps[1..];
      }
      assert StepKey(h) != StepKey(s);
      if StepKey(h) in cps {
        FixedWalkKeepsFiles(cps, steps[1..], s, f);
      } else {
        assert StepKey(s) !in StepSets(h, true);
        FixedWalkKeepsFiles(cps + StepSets(h, true), steps[1..], s, f);
      }
    }
  }

  // ---------------------------------------------------------------------------
  // cmd_pkg_deploy

  /** The result and the checkpoints of a package deployment. */
  datatype PkgOutcome = PkgOutcome(result: Result<seq<Path>, Error>, checkpoints: set<string>)

  /** The steps directory: found ignoring case, or joined as given. */
  function StepsRoot(tree: Tree, pkgPath: Path, stepsSubdir: Path, caseInsensitive: bool): Option<Path>
  {
    if caseInsensitive then
      match Search(tree, pkgPath, stepsSubdir, false)
      case None => None
      case Some(found) => Some(JoinPath(pkgPath, found))
    else Some(JoinPath(pkgPath, stepsSubdir))
  }

  /** `cmd_pkg_deploy`: locate the steps directory, refuse a missing one, build the
      batch (its errors propagate) and walk it under the checkpoints. */
  function PkgDeploy(tree: Tree, pkgPath: Path, stepsSubdir: Path, caseInsensitive: bool, tagger: Tagger, cps: set<string>): PkgOutcome
  {
    match StepsRoot(tree, pkgPath, stepsSubdir, caseInsensitive)
    case None => PkgOutcome(Err(OperationsError("subdir not found: " + Posix(stepsSubdir))), cps)
    case Some(rootDir) =>
      if !IsDir(tree, rootDir) then PkgOutcome(Err(OperationsError("directory not found: " + Posix(rootDir))), cps)
      else match Batch(tree, rootDir, Some(tagger))
        case Err(e) => PkgOutcome(Err(e), cps)
        case Ok(batch) =>
          BatchSteps(tree, rootDir, Some(tagger));
          var w := Walk(cps, batch.steps, false);
          PkgOutcome(Ok(w.deployed), w.checkpoints)
  }

  /** A deployment fails exactly when the steps directory is not found, is not a
      directory, or holds something other than directories; a failed deployment sets
      no checkpoint; a successful one checkpoints every step of the batch. */
  lemma PkgDeployOutcome(tree: Tree, pkgPath: Path, stepsSubdir: Path, caseInsensitive: bool, tagger: Tagger, cps: set<string>)
    ensures var o := PkgDeploy(tree, pkgPath, stepsSubdir, caseInsensitive, tagger, cps);
      var root := StepsRoot(tree, pkgPath, stepsSubdir, caseInsensitive);
      && (o.result.Err? <==> root.None? || !IsDir(tree, root.value) || Batch(tree, root.value, Some(tagger)).Err?)
      && (o.result.Err? ==> o.checkpoints == cps)
      && (o.result.Ok? ==>
            && cps <= o.checkpoints
            && forall s :: s in Batch(tree, root.value, Some(tagger)).value.steps ==> StepKey(s) in o.checkpoints)
  {
    var root := StepsRoot(tree, pkgPath, stepsSubdir, caseInsensitive);
    if root.Some? && IsDir(tree, root.value) && Batch(tree, root.value, Some(tagger)).Ok? {
      BatchSteps(tree, root.value, Some(tagger));
      WalkCheckpoints(cps, Batch(tree, root.value, Some(tagger)).value.steps, false);
    }
  }

  /** Without case-insensitive search a missing steps directory is reported with its
      full path. */
  lemma PkgDeployMissingDirectory(tree: Tree, pkgPath: Path, stepsSubdir: Path, tagger: Tagger, cps: set<string>)
    requires !IsDir(tree, JoinPath(pkgPath, stepsSubdir))
    ensures PkgDeploy(tree, pkgPath, stepsSubdir, false, tagger, cps) ==
      PkgOutcome(Err(OperationsError("directory not found: " + Posix(JoinPath(pkgPath, stepsSubdir)))), cps)
  {
  }

  /** The loop over the files of a step that is not skipped: the files it reaches,
      and the last file's checkpoint, which the loop variable holds at its end. */
  method ReachFiles(ctx: Context, step: DeploymentStep) returns (here: seq<Path>, fileChk: string)
    requires HasFiles(step)
    ensures here == Reached(ctx.checkpoints, step, step.files)
    ensures fileChk == FileKey(step, step.files[|step.files| - 1])
  {
    here := [];
    fileChk := "";
    var stpChk := StepKey(step);
    for j := 0 to |step.files|
      invariant here == Reached(ctx.checkpoints, step, step.files[..j])
      invariant j > 0 ==> fileChk == FileKey(step, step.files[j - 1])
    {
      fileChk := stpChk + "->" + Posix(step.files[j].file);
      assert step.files[..j + 1][..j] == step.files[..j];
      if ctx.GetCheckpoint(fileChk) {
        continue;
      }
      here := here + [step.files[j].file];
    }
    assert step.files[..|step.files|] == step.files;
  }

  /** The walk over one batch, updating the context's checkpoints. */
  method WalkSteps(ctx: Context, steps: seq<DeploymentStep>) returns (deployed: seq<Path>)
    requires AllHaveFiles(steps)
    modifies ctx
    ensures Walked(ctx.checkpoints, deployed) == Walk(old(ctx.checkpoints), steps, false)
    ensures ctx.data == old(ctx.data) && ctx.finished == old(ctx.finished)
  {
    deployed := [];
    for i := 0 to |steps|
      invariant ctx.data == old(ctx.data) && ctx.finished == old(ctx.finished)
      invariant Walk(old(ctx.checkpoints), steps, false) ==
        var w := Walk(ctx.checkpoints, steps[i..], false); Walked(w.checkpoints, deployed + w.deployed)
    {
      var step := steps[i];
      assert step in steps;
      assert steps[i..][1..] == steps[i + 1..];
      var stpChk := StepKey(step);
      if ctx.GetCheckpoint(stpChk) {
        continue;
      }
      var here, fileChk := ReachFiles(ctx, step);
      deployed := deployed + here;
      ghost var before := ctx.checkpoints;
      ctx.SetCheckpoint(fileChk);
      ctx.SetCheckpoint(stpChk);
      assert ctx.checkpoints == before + StepSets(step, false);
    }
  }

  /** `cmd_pkg_deploy`, against the run context; `done()` is called on success. */
  method CmdPkgDeploy(ctx: Context, tree: Tree, pkgPath: Path, stepsSubdir: Path, caseInsensitive: bool, tagger: Tagger)
    returns (r: Result<seq<Path>, Error>)
    modifies ctx
    ensures var o := PkgDeploy(tree, pkgPath, stepsSubdir, caseInsensitive, tagger, old(ctx.checkpoints));
      r == o.result && ctx.checkpoints == o.checkpoints
    ensures ctx.data == old(ctx.data)
    ensures ctx.finished == (r.Ok? || old(ctx.finished))
  {
    var rootDir: Path;
    if caseInsensitive {
      var subdirs := CaseInsensitiveSearch(tree, pkgPath, stepsSubdir);
      if subdirs.None? {
        return Err(OperationsError("subdir not found: " + Posix(stepsSubdir)));
      }
      rootDir := JoinPath(pkgPath, subdirs.value);
    } else {
      rootDir := JoinPath(pkgPath, stepsSubdir);
    }
    if !IsDir(tree, rootDir) {
      return Err(OperationsError("directory not found: " + Posix(rootDir)));
    }
    var batch := CreateBatch(tree, rootDir, Some(tagger));
    if batch.Err? {
      return Err(batch.error);
    }
    BatchSteps(tree, rootDir, Some(tagger));
    var deployed := WalkSteps(ctx, batch.value.steps);
    ctx.Done();
    r := Ok(deployed);
  }
}
