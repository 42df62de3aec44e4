/** Choosing the files git reports as changed and copying them elsewhere. The git
    commands are not part of this model: the repository is a value that answers the
    questions the commands ask it. The effects on the file system are returned as a
    log of actions, in the order the code performs them. */
module GitCopyChanged {
  import opened Wrappers
  import opened Strings
  import opened Paths
  import opened Errors
  import opened FileTree
  import Order

  /** The status git gives a changed path; the statuses the commands never test are
      kept by their code. */
  datatype FileStatus = Added | Modified | Copied | Renamed | Untracked | Unmerged | Other(code: string)

  /** A changed path, relative to the repository and absolute. */
  datatype Change = Change(status: FileStatus, relPath: Path, absPath: Path)

  /** What the repository answers: its directory, the current branch, the branches
      holding a commit, the merge base of two branches, the last commit of a branch,
      the changes between two commits and the changes of a commit. */
  datatype Repo = Repo(
    repoDir: Path,
    currentBranch: string,
    branchesWithCommit: string -> seq<string>,
    mergeBase: (string, string) -> string,
    lastCommitSha: string -> string,
    changesBetween: (string, string) -> seq<Change>,
    changesOnCommit: Option<string> -> seq<Change>)

  /** An effect on the file system: `mkdir(parents=True)`, `shutil.copy`,
      `shutil.copytree`. */
  datatype Action = MakeDirs(dir: Path) | CopyFile(from: Path, to: Path) | CopyTree(from: Path, to: Path)

  /** The statuses `copy` copies. */
  predicate CanCopy(s: FileStatus)
  {
    s in {Added, Modified, Copied, Renamed, Untracked, Unmerged}
  }

  /** The statuses `copy_changed_files` copies (`TO_COPY`). */
  predicate ToCopy(s: FileStatus)
  {
    s in {Added, Modified, Untracked}
  }

  // ---------------------------------------------------------------------------
  // changes_against and _filter_subdir

  /** `changes_against_commit`: the commit must lie on the current branch. */
  function ChangesAgainstCommit(repo: Repo, baselineCommit: string): Result<seq<Change>, Error>
  {
    var feature := repo.currentBranch;
    var branches := repo.branchesWithCommit(baselineCommit);
    if feature !in branches then
      Err(OperationsError("commit (" + baselineCommit + ") is not in current branch (" + feature + ")\n"
        + "branches_with_commit=" + ShownList(branches)))
    else Ok(repo.changesBetween(baselineCommit, repo.lastCommitSha(feature)))
  }

  /** `changes_against_branch`: the changes since the merge base with another
      branch. */
  function ChangesAgainstBranch(repo: Repo, baselineBranch: string): Result<seq<Change>, Error>
  {
    var feature := repo.currentBranch;
    if feature == baselineBranch then Err(OperationsError("can not diff against current branch: " + feature))
    else Ok(repo.changesBetween(repo.mergeBase(baselineBranch, feature), repo.lastCommitSha(feature)))
  }

  /** `_is_in_list`: the posix form of the path starts with that of a subdirectory
      followed by "/". */
  predicate InSubdirs(p: Path, subdirs: seq<Path>)
  {
    exists s :: s in subdirs && StartsWith(Posix(p), Posix(s) + "/")
  }

  /** `_filter_subdir`: the changes whose absolute path lies in a subdirectory, in
      their order. */
  function FilterSubdir(changes: seq<Change>, subdirs: seq<Path>): seq<Change>
  {
    Order.Filter(changes, (c: Change) => InSubdirs(c.absPath, subdirs))
  }

  /** `changes_against`: the changes against a commit or a branch, kept to the
      subdirectories of the repository when some are given. */
  function ChangesAgainst(repo: Repo, diffAgainst: string, diffIdent: string, subdirs: seq<Path>): Result<seq<Change>, Error>
  {
    var changes :=
      if diffAgainst == "commit" then ChangesAgainstCommit(repo, diffIdent)
      else if diffAgainst == "branch" then ChangesAgainstBranch(repo, diffIdent)
      else Err(OperationsError("diff_against: should be one of ('commit','branch'): " + diffAgainst));
    if changes.Ok? && |subdirs| > 0 then
      Ok(FilterSubdir(changes.value, seq(|subdirs|, i requires 0 <= i < |subdirs| => JoinPath(repo.repoDir, subdirs[i]))))
    else changes
  }

  /** The comparison fails exactly when its kind is unknown, when a branch is compared
      with itself, or when the commit is not on the current branch; without
      subdirectories every change git reports is kept. */
  lemma ChangesAgainstOutcome(repo: Repo, diffAgainst: string, diffIdent: string, subdirs: seq<Path>)
    ensures ChangesAgainst(repo, diffAgainst, diffIdent, subdirs).Err? <==>
      (diffAgainst != "commit" && diffAgainst != "branch")
      || (diffAgainst == "branch" && diffIdent == repo.currentBranch)
      || (diffAgainst == "commit" && repo.currentBranch !in repo.branchesWithCommit(diffIdent))
    ensures diffAgainst == "branch" && diffIdent != repo.currentBranch && subdirs == [] ==>
      ChangesAgainst(repo, diffAgainst, diffIdent, subdirs)
        == Ok(repo.changesBetween(repo.mergeBase(diffIdent, repo.currentBranch), repo.lastCommitSha(repo.currentBranch)))
    ensures ChangesAgainst(repo, diffAgainst, diffIdent, subdirs).Err? ==>
      ChangesAgainst(repo, diffAgainst, diffIdent, subdirs).error.OperationsError?
  {
  }

  /** No component of the path holds a "/". */
  predicate Plain(p: Path)
  {
    forall i :: 0 <= i < |p| ==> '/' !in p[i]
  }

  /** Two components without "/" followed by "/" agree exactly when the components
      agree. */
  lemma SlashPrefix(a: string, x: string, b: string, y: string)
    requires '/' !in a && '/' !in b
    ensures StartsWith(a + "/" + x, b + "/" + y) <==> a == b && StartsWith(x, y)
  {
    var l := a + "/" + x;
    var r := b + "/" + y;
    if a == b && StartsWith(x, y) {
      assert l[..|r|] == a + "/" + x[..|y|];
    }
    if StartsWith(l, r) {
      forall k | 0 <= k < |a| ensures l[k] != '/' {
        assert l[k] == a[k] && a[k] in a;
      }
      forall k | 0 <= k < |b| ensures r[k] != '/' {
        assert r[k] == b[k] && b[k] in b;
      }
      forall k | 0 <= k < |r| ensures l[k] == r[k] {
        assert l[..|r|][k] == l[k];
      }
      assert l[|a|] == '/' && r[|b|] == '/';
      assert |a| == |b|;
      assert a == l[..|a|] == r[..|b|] == b;
      assert x == l[|a| + 1..];
      assert y == r[|b| + 1..];
      assert x[..|y|] == l[|a| + 1..|a| + 1 + |y|];
    }
  }

  /** A text without "/" never starts with a component followed by "/". */
  lemma NoSlashPrefix(a: string, b: string, y: string)
    requires '/' !in a
    ensures !StartsWith(a, b + "/" + y)
  {
    if |b| < |a| {
      assert (b + "/" + y)[|b|] == '/';
      assert a[|b|] in a;
    }
  }

  /** On components without "/", the joined path starts with another joined path
      followed by "/" exactly when the other path is a proper prefix of it. */
  lemma {:induction false} JoinPrefix(p: Path, s: Path)
    requires |p| >= 1 && |s| >= 1 && Plain(p) && Plain(s)
    ensures StartsWith(Join(p, "/"), Join(s, "/") + "/") <==> |p| > |s| && p[..|s|] == s
    decreases |s|
  {
    assert '/' !in p[0] && '/' !in s[0];
    if |p| == 1 {
      if |s| == 1 {
        NoSlashPrefix(p[0], s[0], "");
        assert Join(s, "/") + "/" == s[0] + "/" + "";
      } else {
        NoSlashPrefix(p[0], s[0], Join(s[1..], "/") + "/");
        assert Join(s, "/") + "/" == s[0] + "/" + (Join(s[1..], "/") + "/");
      }
    } else if |s| == 1 {
      SlashPrefix(p[0], Join(p[1..], "/"), s[0], "");
      assert Join(s, "/") + "/" == s[0] + "/" + "";
      assert StartsWith(Join(p[1..], "/"), "");
    } else {
      var p', s' := p[1..], s[1..];
      assert Plain(p') && Plain(s');
      SlashPrefix(p[0], Join(p', "/"), s[0], Join(s', "/") + "/");
      assert Join(s, "/") + "/" == s[0] + "/" + (Join(s', "/") + "/");
      JoinPrefix(p', s');
      if |p| > |s| {
        assert p[..|s|] == [p[0]] + p'[..|s'|];
      }
      assert s == [s[0]] + s';
    }
  }

  /** A path that is neither `.` nor `/` prints as its joined components, and not as
      a single character. */
  lemma PosixJoined(s: Path)
    requires s != [] && s != [""]
    ensures Posix(s) == Join(s, "/") && |Posix(s)| >= 1
  {
    if |s| > 1 {
      assert Join(s, "/") == s[0] + "/" + Join(s[1..], "/");
    }
  }

  /** On paths whose components hold no "/", `_filter_subdir` keeps exactly the
      changes that lie strictly below one of the subdirectories: a subdirectory itself
      is not kept by its own entry. */
  lemma FilterSubdirBelow(changes: seq<Change>, subdirs: seq<Path>)
    requires forall c :: c in changes ==> Plain(c.absPath)
    requires forall s :: s in subdirs ==> Plain(s) && s != [] && s != [""]
    ensures forall c :: c in FilterSubdir(changes, subdirs) <==>
      c in changes && exists s :: s in subdirs && IsBelow(c.absPath, s)
  {
    forall c, s | c in changes && s in subdirs
      ensures StartsWith(Posix(c.absPath), Posix(s) + "/") <==> IsBelow(c.absPath, s)
    {
      InSubdirIsBelow(c.absPath, s);
    }
  }

  lemma InSubdirIsBelow(p: Path, s: Path)
    requires Plain(p) && Plain(s) && s != [] && s != [""]
    ensures StartsWith(Posix(p), Posix(s) + "/") <==> IsBelow(p, s)
  {
    PosixJoined(s);
    if p == [] || p == [""] {
      assert |Posix(p)| == 1;
    } else {
      PosixJoined(p);
      JoinPrefix(p, s);
    }
  }

  // ---------------------------------------------------------------------------
  // copy

  /** The effects of `copy`'s loop, given the parent directories made so far: each
      change with a status it copies is copied from the repository to the same
      relative path under `into`, its parent being made first unless already made. */
  function CopyPlan(repoDir: Path, into: Path, changes: seq<Change>, dirs: set<Path>): seq<Action>
    decreases |changes|
  {
    if changes == [] then []
    else
      var c := changes[0];
      if !CanCopy(c.status) then CopyPlan(repoDir, into, changes[1..], dirs)
      else
        var to := JoinPath(into, c.relPath);
        var parent := Parent(to);
        (if parent in dirs then [] else [MakeDirs(parent)])
        + [CopyFile(JoinPath(repoDir, c.relPath), to)]
        + CopyPlan(repoDir, into, changes[1..], dirs + {parent})
  }

  /** The copies in a log of effects. */
  function Copies(log: seq<Action>): seq<(Path, Path)>
  {
    if log == [] then []
    else (if log[0].CopyFile? then [(log[0].from, log[0].to)] else []) + Copies(log[1..])
  }

  lemma {:induction false} CopiesAppend(a: seq<Action>, b: seq<Action>)
    ensures Copies(a + b) == Copies(a) + Copies(b)
    decreases |a|
  {
    if a != [] {
      assert (a + b)[0] == a[0] && (a + b)[1..] == a[1..] + b;
      CopiesAppend(a[1..], b);
    } else {
      assert a + b == b;
    }
  }

  /** What `copy` is meant to copy: each change it may copy, from the repository to
      `into`, in order. */
  function Planned(repoDir: Path, into: Path, changes: seq<Change>): seq<(Path, Path)>
  {
    if changes == [] then []
    else
      (if CanCopy(changes[0].status) then [(JoinPath(repoDir, changes[0].relPath), JoinPath(into, changes[0].relPath))] else [])
      + Planned(repoDir, into, changes[1..])
  }

  /** `copy` copies exactly the changes with a status it may copy, in order, and
      whatever directories it made before. */
  lemma {:induction false} CopyPlanCopies(repoDir: Path, into: Path, changes: seq<Change>, dirs: set<Path>)
    ensures Copies(CopyPlan(repoDir, into, changes, dirs)) == Planned(repoDir, into, changes)
    decreases |changes|
  {
    if changes != [] {
      var c := changes[0];
      if !CanCopy(c.status) {
        CopyPlanCopies(repoDir, into, changes[1..], dirs);
      } else {
        var to := JoinPath(into, c.relPath);
        var parent := Parent(to);
        var head := (if parent in dirs then [] else [MakeDirs(parent)]) + [CopyFile(JoinPath(repoDir, c.relPath), to)];
        CopyPlanCopies(repoDir, into, changes[1..], dirs + {parent});
        CopiesAppend(head, CopyPlan(repoDir, into, changes[1..], dirs + {parent}));
        assert Copies(head) == [(JoinPath(repoDir, c.relPath), to)] by {
          if parent !in dirs {
            CopiesAppend([MakeDirs(parent)], [CopyFile(JoinPath(repoDir, c.relPath), to)]);
          }
        }
      }
    }
  }

  /** A log of effects in which every file is copied into a directory made before,
      and no directory is made that was made already. */
  predicate ParentsFirst(log: seq<Action>, dirs: set<Path>)
    decreases |log|
  {
    log == [] ||
    match log[0]
    case MakeDirs(d) => d !in dirs && ParentsFirst(log[1..], dirs + {d})
    case CopyFile(_, to) => Parent(to) in dirs && ParentsFirst(log[1..], dirs)
    case CopyTree(_, _) => ParentsFirst(log[1..], dirs)
  }

  /** `copy` makes each parent directory once, before the first copy into it. */
  lemma {:induction false} CopyPlanParents(repoDir: Path, into: Path, changes: seq<Change>, dirs: set<Path>)
    ensures ParentsFirst(CopyPlan(repoDir, into, changes, dirs), dirs)
    decreases |changes|
  {
    if changes != [] {
      var c := changes[0];
      if !CanCopy(c.status) {
        CopyPlanParents(repoDir, into, changes[1..], dirs);
      } else {
        var to := JoinPath(into, c.relPath);
        var parent := Parent(to);
        var copy := CopyFile(JoinPath(repoDir, c.relPath), to);
        var rest := CopyPlan(repoDir, into, changes[1..], dirs + {parent});
        CopyPlanParents(repoDir, into, changes[1..], dirs + {parent});
        assert ParentsFirst([copy] + rest, dirs + {parent}) by {
          assert ([copy] + rest)[1..] == rest;
        }
        if parent !in dirs {
          assert ([MakeDirs(parent)] + [copy] + rest)[1..] == [copy] + rest;
        } else {
          assert dirs + {parent} == dirs;
        }
      }
    }
  }

  /** `copy`: the comparison, then the loop that copies the changes, each parent
      directory being made once. The copies are returned as effects. */
  method Copy(repo: Repo, diffAgainst: string, diffIdent: string, intoSubdir: Path, subdirs: seq<Path>)
    returns (r: Result<seq<Change>, Error>, log: seq<Action>)
    ensures r == ChangesAgainst(repo, diffAgainst, diffIdent, subdirs)
    ensures log == if r.Ok? then CopyPlan(repo.repoDir, intoSubdir, r.value, {}) else []
  {
    r := ChangesAgainst(repo, diffAgainst, diffIdent, subdirs);
    log := [];
    if r.Err? {
      return;
    }
    var changes := r.value;
    var dirs: set<Path> := {};
    for i := 0 to |changes|
      invariant log + CopyPlan(repo.repoDir, intoSubdir, changes[i..], dirs) == CopyPlan(repo.repoDir, intoSubdir, changes, {})
    {
      var c := changes[i];
      assert changes[i..][0] == c && changes[i..][1..] == changes[i + 1..];
      if !CanCopy(c.status) {
        continue;
      }
      var copyFrom := JoinPath(repo.repoDir, c.relPath);
      var copyTo := JoinPath(intoSubdir, c.relPath);
      var parent := Parent(copyTo);
      ghost var before := dirs;
      var step: seq<Action> := [];
      if parent !in dirs {
        step := [MakeDirs(parent)];
        dirs := dirs + {parent};
      }
      assert dirs == before + {parent};
      step := step + [CopyFile(copyFrom, copyTo)];
      assert CopyPlan(repo.repoDir, intoSubdir, changes[i..], before)
        == step + CopyPlan(repo.repoDir, intoSubdir, changes[i + 1..], dirs);
      assert log + step + CopyPlan(repo.repoDir, intoSubdir, changes[i + 1..], dirs)
        == log + (step + CopyPlan(repo.repoDir, intoSubdir, changes[i + 1..], dirs));
      log := log + step;
    }
  }

  // ---------------------------------------------------------------------------
  // copy_changed_files

  /** The directory the changes are taken from. */
  function SourcePath(repo: Repo, sourceSubdir: Option<Path>): Path
  {
    if sourceSubdir.Some? then JoinPath(repo.repoDir, sourceSubdir.value) else repo.repoDir
  }

  /** The selection loop of `copy_changed_files`: each change below the source with
      a status in `TO_COPY`, paired with its place under the target. */
  function Selected(changes: seq<Change>, source: Path, target: Path): seq<(Path, Path)>
    decreases |changes|
  {
    if changes == [] then []
    else
      var c := changes[0];
      (if IsRelativeTo(c.absPath, source) && ToCopy(c.status)
       then [(c.absPath, JoinPath(target, RelativeTo(c.absPath, source)))] else [])
      + Selected(changes[1..], source, target)
  }

  /** A pair is selected exactly when it comes from a change below the source with a
      status to copy, and goes to the same relative place below the target. */
  lemma {:induction false} SelectedPairs(changes: seq<Change>, source: Path, target: Path)
    ensures forall src, dst :: (src, dst) in Selected(changes, source, target) <==>
      exists c :: c in changes && c.absPath == src && IsRelativeTo(src, source) && ToCopy(c.status)
        && dst == JoinPath(target, RelativeTo(src, source))
    decreases |changes|
  {
    if changes != [] {
      SelectedPairs(changes[1..], source, target);
      assert forall c :: c in changes <==> c == changes[0] || c in changes[1..];
    }
  }

  /** The parent of every selected target is made before the prompt. */
  function Parents(pairs: seq<(Path, Path)>): seq<Action>
  {
    seq(|pairs|, i requires 0 <= i < |pairs| => MakeDirs(Parent(pairs[i].1)))
  }

  lemma ParentsSnoc(pairs: seq<(Path, Path)>, p: (Path, Path))
    ensures Parents(pairs + [p]) == Parents(pairs) + [MakeDirs(Parent(p.1))]
  {
  }

  lemma SelectedNext(changes: seq<Change>, i: nat, source: Path, target: Path)
    requires i < |changes|
    ensures var c := changes[i];
      Selected(changes[i..], source, target) ==
        (if IsRelativeTo(c.absPath, source) && ToCopy(c.status)
         then [(c.absPath, JoinPath(target, RelativeTo(c.absPath, source)))] else [])
        + Selected(changes[i + 1..], source, target)
  {
    assert changes[i..][0] == changes[i] && changes[i..][1..] == changes[i + 1..];
  }

  /** Appending what one change picks keeps the selection invariant. */
  lemma SelectKeeps(changes: seq<Change>, i: nat, source: Path, target: Path, done: seq<(Path, Path)>,
                    pick: seq<(Path, Path)>)
    requires i < |changes|
    requires var c := changes[i];
      pick == if IsRelativeTo(c.absPath, source) && ToCopy(c.status)
              then [(c.absPath, JoinPath(target, RelativeTo(c.absPath, source)))] else []
    ensures (done + pick) + Selected(changes[i + 1..], source, target) == done + Selected(changes[i..], source, target)
  {
    SelectedNext(changes, i, source, target);
  }

  /** The copy loop: a missing source is skipped, a directory is copied as a tree
      into a made directory, anything else as a file. */
  function Transfers(tree: Tree, pairs: seq<(Path, Path)>): seq<Action>
    decreases |pairs|
  {
    if pairs == [] then []
    else
      var (src, dst) := pairs[0];
      var here :=
        if !(exists e :: e in tree && e.path == src) then []
        else if IsDir(tree, src) then [MakeDirs(dst), CopyTree(src, dst)]
        else [CopyFile(src, dst)];
      here + Transfers(tree, pairs[1..])
  }

  /** `copy_changed_files`: `proceed` is whether the answer to the prompt, when there
      is one, is "y". */
  function CopyChanged(repo: Repo, tree: Tree, target: Path, sourceSubdir: Option<Path>, assumeYes: bool,
                       proceed: bool, commit: Option<string>): Result<seq<Action>, Error>
  {
    var source := SourcePath(repo, sourceSubdir);
    if sourceSubdir.Some? && !IsDir(tree, source) then Err(GitError("directory not found: " + Posix(source)))
    else
      var changes := repo.changesOnCommit(commit);
      if |changes| == 0 then Ok([])
      else
        var pairs := Selected(changes, source, target);
        if !assumeYes && !proceed then Ok(Parents(pairs))
        else Ok(Parents(pairs) + Transfers(tree, pairs))
  }

  lemma {:induction false} TransfersFrom(tree: Tree, pairs: seq<(Path, Path)>)
    ensures forall a :: a in Transfers(tree, pairs) && !a.MakeDirs? ==> (a.from, a.to) in pairs
    ensures forall j :: 0 <= j < |pairs| && (exists e :: e in tree && e.path == pairs[j].0) ==>
      CopyFile(pairs[j].0, pairs[j].1) in Transfers(tree, pairs) || CopyTree(pairs[j].0, pairs[j].1) in Transfers(tree, pairs)
    decreases |pairs|
  {
    if pairs != [] {
      var (src, dst) := pairs[0];
      var here :=
        if !(exists e :: e in tree && e.path == src) then []
        else if IsDir(tree, src) then [MakeDirs(dst), CopyTree(src, dst)]
        else [CopyFile(src, dst)];
      assert Transfers(tree, pairs) == here + Transfers(tree, pairs[1..]);
      TransfersFrom(tree, pairs[1..]);
      forall j | 1 <= j < |pairs| ensures pairs[j] == pairs[1..][j - 1] {
      }
    }
  }

  /** The command fails only when the source subdirectory is not a directory. Every
      file or tree it copies comes from a change below the source with a status to
      copy and goes to the same relative place below the target; every such change
      whose path exists is copied once the prompt is passed; a cancelled prompt copies
      nothing, yet the target's directories have been made. */
  lemma CopyChangedOutcome(repo: Repo, tree: Tree, target: Path, sourceSubdir: Option<Path>, assumeYes: bool,
                           proceed: bool, commit: Option<string>)
    ensures var r := CopyChanged(repo, tree, target, sourceSubdir, assumeYes, proceed, commit);
      r.Err? <==> sourceSubdir.Some? && !IsDir(tree, SourcePath(repo, sourceSubdir))
    ensures var r := CopyChanged(repo, tree, target, sourceSubdir, assumeYes, proceed, commit);
      var source := SourcePath(repo, sourceSubdir);
      r.Ok? ==> forall a :: a in r.value && !a.MakeDirs? ==>
        exists c :: c in repo.changesOnCommit(commit) && c.absPath == a.from && IsRelativeTo(a.from, source)
          && ToCopy(c.status) && a.to == JoinPath(target, RelativeTo(a.from, source))
    ensures var r := CopyChanged(repo, tree, target, sourceSubdir, assumeYes, proceed, commit);
      var source := SourcePath(repo, sourceSubdir);
      r.Ok? && (assumeYes || proceed) ==> forall c ::
        (c in repo.changesOnCommit(commit) && IsRelativeTo(c.absPath, source)
         && ToCopy(c.status) && (exists e :: e in tree && e.path == c.absPath)) ==>
          var dst := JoinPath(target, RelativeTo(c.absPath, source));
          CopyFile(c.absPath, dst) in r.value || CopyTree(c.absPath, dst) in r.value
    ensures var r := CopyChanged(repo, tree, target, sourceSubdir, assumeYes, proceed, commit);
      r.Ok? && !assumeYes && !proceed ==> forall a :: a in r.value ==> a.MakeDirs?
  {
    var r := CopyChanged(repo, tree, target, sourceSubdir, assumeYes, proceed, commit);
    var source := SourcePath(repo, sourceSubdir);
    var changes := repo.changesOnCommit(commit);
    if r.Ok? && |changes| > 0 {
      var pairs := Selected(changes, source, target);
      SelectedPairs(changes, source, target);
      TransfersFrom(tree, pairs);
      assert forall a :: a in Parents(pairs) ==> a.MakeDirs?;
      forall c | c in changes && IsRelativeTo(c.absPath, source) && ToCopy(c.status)
        ensures (c.absPath, JoinPath(target, RelativeTo(c.absPath, source))) in pairs
      {
      }
    }
  }

  /** The selection loop of `copy_changed_files`: the pairs to copy, and the
      making of each target's parent. */
  method SelectChanges(changes: seq<Change>, source: Path, target: Path) returns (copyFiles: seq<(Path, Path)>, log: seq<Action>)
    ensures copyFiles == Selected(changes, source, target)
    ensures log == Parents(copyFiles)
  {
    log := [];
    copyFiles := [];
    for i := 0 to |changes|
      invariant copyFiles + Selected(changes[i..], source, target) == Selected(changes, source, target)
      invariant log == Parents(copyFiles)
    {
      var change := changes[i];
      if !IsRelativeTo(change.absPath, source) || !ToCopy(change.status) {
        SelectKeeps(changes, i, source, target, copyFiles, []);
        assert copyFiles + [] == copyFiles;
        continue;
      }
      var tgtFile := JoinPath(target, RelativeTo(change.absPath, source));
      ParentsSnoc(copyFiles, (change.absPath, tgtFile));
      SelectKeeps(changes, i, source, target, copyFiles, [(change.absPath, tgtFile)]);
      log := log + [MakeDirs(Parent(tgtFile))];
      copyFiles := copyFiles + [(change.absPath, tgtFile)];
    }
    assert changes[|changes|..] == [];
  }

  /** The copy loop of `copy_changed_files`. */
  method TransferAll(tree: Tree, copyFiles: seq<(Path, Path)>) returns (log: seq<Action>)
    ensures log == Transfers(tree, copyFiles)
  {
    log := [];
    for i := 0 to |copyFiles|
      invariant log + Transfers(tree, copyFiles[i..]) == Transfers(tree, copyFiles)
    {
      var (source, dst) := copyFiles[i];
      if !(exists e :: e in tree && e.path == source) {
        TransferKeeps(tree, copyFiles, i, log, []);
        assert log + [] == log;
        continue;
      }
      if IsDir(tree, source) {
        TransferKeeps(tree, copyFiles, i, log, [MakeDirs(dst), CopyTree(source, dst)]);
        log := log + [MakeDirs(dst), CopyTree(source, dst)];
        continue;
      }
      TransferKeeps(tree, copyFiles, i, log, [CopyFile(source, dst)]);
      log := log + [CopyFile(source, dst)];
    }
    assert copyFiles[|copyFiles|..] == [];
  }

  lemma TransfersNext(tree: Tree, pairs: seq<(Path, Path)>, i: nat)
    requires i < |pairs|
    ensures var (src, dst) := pairs[i];
      Transfers(tree, pairs[i..]) ==
        (if !(exists e :: e in tree && e.path == src) then []
         else if IsDir(tree, src) then [MakeDirs(dst), CopyTree(src, dst)]
         else [CopyFile(src, dst)])
        + Transfers(tree, pairs[i + 1..])
  {
    assert pairs[i..][0] == pairs[i] && pairs[i..][1..] == pairs[i + 1..];
  }

  /** Appending what one pair does keeps the copy loop's invariant. */
  lemma TransferKeeps(tree: Tree, pairs: seq<(Path, Path)>, i: nat, done: seq<Action>, here: seq<Action>)
    requires i < |pairs|
    requires var (src, dst) := pairs[i];
      here == if !(exists e :: e in tree && e.path == src) then []
              else if IsDir(tree, src) then [MakeDirs(dst), CopyTree(src, dst)]
              else [CopyFile(src, dst)]
    ensures (done + here) + Transfers(tree, pairs[i + 1..]) == done + Transfers(tree, pairs[i..])
  {
    TransfersNext(tree, pairs, i);
  }

  /** `copy_changed_files`, with its effects returned as a log. */
  method CopyChangedFiles(repo: Repo, tree: Tree, target: Path, sourceSubdir: Option<Path>, assumeYes: bool,
                          proceed: bool, commit: Option<string>) returns (r: Result<seq<Action>, Error>)
    ensures r == CopyChanged(repo, tree, target, sourceSubdir, assumeYes, proceed, commit)
  {
    var absoluteSourcePath := repo.repoDir;
    if sourceSubdir.Some? {
      absoluteSourcePath := JoinPath(repo.repoDir, sourceSubdir.value);
      if !IsDir(tree, absoluteSourcePath) {
        return Err(GitError("directory not found: " + Posix(absoluteSourcePath)));
      }
    }
    var changes := repo.changesOnCommit(commit);
    if |changes| == 0 {
      return Ok([]);
    }
    var copyFiles, log := SelectChanges(changes, absoluteSourcePath, target);
    if !assumeYes && !proceed {
      return Ok(log);
    }
    var copied := TransferAll(tree, copyFiles);
    r := Ok(log + copied);
  }
}
