/** The file tree the commands read: every existing path with its kind and, for a
    regular file, its text. Listings come out in the tree's own order, as `glob` and
    `rglob` give them; the callers sort them when the source does. */
module FileTree {
  import opened Paths
  import opened Order

  /** What `is_file()` and `is_dir()` say of a path: a regular file, a directory, or
      anything else (a socket, a device). */
  datatype Kind = File | Directory | Special

  datatype Entry = Entry(path: Path, kind: Kind, text: string)

  type Tree = seq<Entry>

  /** `a <= b` on entries, by Python's order on their paths. */
  predicate EntryLe(a: Entry, b: Entry)
  {
    !PathLess(b.path, a.path)
  }

  /** Entries ordered by path form a total preorder, which `sorted` needs. */
  lemma EntryLeTotalPreorder()
    ensures TotalPreorder(EntryLe)
  {
    PathLessStrictTotal();
    forall x: Entry, y: Entry ensures EntryLe(x, y) || EntryLe(y, x) {
      if x.path != y.path {
        assert PathLess(x.path, y.path) || PathLess(y.path, x.path);
      }
    }
    forall x: Entry, y: Entry, z: Entry | EntryLe(x, y) && EntryLe(y, z) ensures EntryLe(x, z) {
      assert x.path == y.path || PathLess(x.path, y.path);
    }
  }

  /** `sorted(entries)`. */
  function SortEntries(entries: seq<Entry>): (r: seq<Entry>)
    ensures Sorted(r, EntryLe)
    ensures multiset(r) == multiset(entries)
  {
    EntryLeTotalPreorder();
    SortCorrect(entries, EntryLe);
    Sort(entries, EntryLe)
  }

  /** `p` lies directly inside `root`. */
  predicate IsChild(p: Path, root: Path)
  {
    |p| == |root| + 1 && p[..|root|] == root
  }

  /** `p` lies somewhere below `root`. */
  predicate IsBelow(p: Path, root: Path)
  {
    |p| > |root| && p[..|root|] == root
  }

  /** `root.glob("*")`. */
  function Children(tree: Tree, root: Path): (r: seq<Entry>)
    ensures forall e :: e in r <==> e in tree && IsChild(e.path, root)
  {
    Filter(tree, (e: Entry) => IsChild(e.path, root))
  }

  /** `root.rglob("*")`. */
  function Below(tree: Tree, root: Path): (r: seq<Entry>)
    ensures forall e :: e in r <==> e in tree && IsBelow(e.path, root)
  {
    Filter(tree, (e: Entry) => IsBelow(e.path, root))
  }

  /** `p.is_dir()`. */
  predicate IsDir(tree: Tree, p: Path)
  {
    exists e :: e in tree && e.path == p && e.kind == Directory
  }
}

/** The tagger, whose rewriting rules are not part of this model: `expand_statement`
    replaces the placeholders in a text, `tag_database` turns a database name into
    its tagged form. */
module Tagging {
  datatype Tagger = Tagger(expandStatement: string -> string, tagDatabase: string -> string)
}
