/** The file-system writer: where an object's DDL file goes, what the file holds,
    and which files are deleted when their objects no longer exist. The file tree is
    the map from each file's path to its text. */
module FsWriter {
  import opened Wrappers
  import opened Strings
  import opened Paths
  import opened Errors
  import opened MetaModel

  const TABLE_SUFFIX: string := ".tab"
  const VIEW_SUFFIX: string := ".viw"
  const PROC_SUFFIX: string := ".pro"
  const JIDX_SUFFIX: string := ".jix"
  const IDX_SUFFIX: string := ".idx"
  const MACRO_SUFFIX: string := ".mcr"
  const DATABASE_SUFFIX: string := ".dtb"
  const TRIGGER_SUFFIX: string := ".trg"
  const FUNCTION_SUFFIX: string := ".func"
  const TYPE_SUFFIX: string := ".type"
  const AUTH_SUFFIX: string := ".auth"

  /** `TYPE_TO_EXT[t]`: the extension of the files that hold objects of type `t`. */
  function TypeToExt(t: string): Option<string>
  {
    if t == TABLE then Some(TABLE_SUFFIX)
    else if t == VIEW then Some(VIEW_SUFFIX)
    else if t == PROCEDURE then Some(PROC_SUFFIX)
    else if t == JOIN_INDEX then Some(JIDX_SUFFIX)
    else if t == INDEX then Some(IDX_SUFFIX)
    else if t == MACRO then Some(MACRO_SUFFIX)
    else if t == DATABASE then Some(DATABASE_SUFFIX)
    else if t == TRIGGER then Some(TRIGGER_SUFFIX)
    else if t == FUNCTION then Some(FUNCTION_SUFFIX)
    else if t == TYPE then Some(TYPE_SUFFIX)
    else if t == AUTHORIZATION then Some(AUTH_SUFFIX)
    else None
  }

  /** `EXT_TO_TYPE[e]`: the same table read from the extension side. */
  function ExtToType(e: string): Option<string>
  {
    if e == TABLE_SUFFIX then Some(TABLE)
    else if e == VIEW_SUFFIX then Some(VIEW)
    else if e == PROC_SUFFIX then Some(PROCEDURE)
    else if e == JIDX_SUFFIX then Some(JOIN_INDEX)
    else if e == IDX_SUFFIX then Some(INDEX)
    else if e == MACRO_SUFFIX then Some(MACRO)
    else if e == DATABASE_SUFFIX then Some(DATABASE)
    else if e == TRIGGER_SUFFIX then Some(TRIGGER)
    else if e == FUNCTION_SUFFIX then Some(FUNCTION)
    else if e == TYPE_SUFFIX then Some(TYPE)
    else if e == AUTH_SUFFIX then Some(AUTHORIZATION)
    else None
  }

  /** Every type's extension maps back to that type. */
  lemma TypeToExtInverse(t: string)
    ensures TypeToExt(t).Some? ==> ExtToType(TypeToExt(t).value) == Some(t)
  {
  }

  /** Every managed extension maps back to itself through its type. */
  lemma ExtToTypeInverse(e: string)
    ensures ExtToType(e).Some? ==> TypeToExt(ExtToType(e).value) == Some(e)
  {
  }

  /** No two types share an extension. */
  lemma ExtensionsDistinct(t1: string, t2: string)
    requires TypeToExt(t1).Some? && TypeToExt(t1) == TypeToExt(t2)
    ensures t1 == t2
  {
    TypeToExtInverse(t1);
    TypeToExtInverse(t2);
  }

  /** An extension is a dot followed by lower-case letters. */
  predicate ExtShape(e: string)
  {
    |e| >= 2 && e[0] == '.' && forall k :: 1 <= k < |e| ==> 'a' <= e[k] <= 'z'
  }

  lemma ExtensionsShaped(t: string)
    ensures TypeToExt(t).Some? ==> ExtShape(TypeToExt(t).value)
  {
  }

  /** A path component as Python's `Path` keeps it: not empty and not `.`. */
  predicate Plain(s: string)
  {
    s != "" && s != "." && forall k :: 0 <= k < |s| ==> s[k] != '/'
  }

  function Components(parts: seq<string>): (r: Path)
    ensures forall k :: 0 <= k < |r| ==> r[k] != "" && r[k] != "."
  {
    if parts == [] then []
    else if parts[0] == "" || parts[0] == "." then Components(parts[1..])
    else [parts[0]] + Components(parts[1..])
  }

  /** `Path(s)`: the components between slashes; a leading slash makes the path
      absolute, which is a first component "". */
  function PathOf(s: string): Path
  {
    (if s != [] && s[0] == '/' then [""] else []) + Components(Split(s, "/"))
  }

  lemma PathOfPlain(s: string)
    requires Plain(s)
    ensures PathOf(s) == [s]
  {
    forall k: nat | k + 1 <= |s|
      ensures !OccursAt(s, "/", k)
    {
      assert s[k..k + 1] == [s[k]];
    }
    assert Split(s, "/") == [s];
    assert Components([s]) == [s] + Components([]);
  }

  lemma LowerPlain(s: string)
    requires Plain(s)
    ensures Plain(Lower(s))
  {
    assert Lower(s) != "." by {
      LowerChars(s);
      if |s| == 1 {
        assert Lower(s)[0] == LowerChar(s[0]);
      }
    }
  }

  /** Lowering leaves a text without capital letters as it is. */
  lemma LowerNoCapitals(s: string)
    requires forall k :: 0 <= k < |s| ==> !('A' <= s[k] <= 'Z')
    ensures Lower(s) == s
  {
    LowerChars(s);
  }

  lemma AppendAssoc<T>(a: seq<T>, b: seq<T>, c: seq<T>)
    ensures a + (b + c) == (a + b) + c
  {
  }

  lemma TakeTake<T>(s: seq<T>, i: nat, j: nat)
    requires i <= j <= |s|
    ensures s[..j][..i] == s[..i]
  {
  }

  lemma TakeSnoc<T>(a: seq<T>, x: T)
    ensures (a + [x])[..|a|] == a
  {
  }

  lemma TakeNext<T>(s: seq<T>, i: nat)
    requires i < |s|
    ensures s[..i + 1] == s[..i] + [s[i]]
  {
  }

  lemma TakeAll<T>(s: seq<T>)
    ensures s[..|s|] == s
  {
  }

  // ---------------------------------------------------------------------------
  // The text of an object's file

  /** The statements that come before the details: the definition and the comment,
      each when present and not empty. */
  function Header(obj: DescribedObject): seq<Option<string>>
  {
    (if obj.basicDefinition.Some? && obj.basicDefinition.value != "" then [obj.basicDefinition] else [])
    + (if obj.objectCommentDdl.Some? && obj.objectCommentDdl.value != ""
       then [Some("\n" + obj.objectCommentDdl.value)] else [])
  }

  /** The `ddl_statement` of a column or a statistic; a column may have none. */
  function DetailDdl(d: Detail): Option<string>
  {
    match d
    case Column(c) => c.ddlStatement
    case Statistic(s) => Some(s.ddlStatement)
    case Unsupported(_) => None
  }

  function Ddls(ds: seq<Detail>): (r: seq<Option<string>>)
    ensures |r| == |ds|
    ensures forall j :: 0 <= j < |ds| ==> r[j] == DetailDdl(ds[j])
  {
    if ds == [] then [] else Ddls(ds[..|ds| - 1]) + [DetailDdl(ds[|ds| - 1])]
  }

  /** Index of the first statistic, or the length when there is none. */
  function FirstStatistic(ds: seq<Detail>): (k: nat)
    ensures k <= |ds|
    ensures forall j :: 0 <= j < k ==> !ds[j].Statistic?
    ensures k < |ds| ==> ds[k].Statistic?
  {
    if ds == [] || ds[0].Statistic? then 0 else 1 + FirstStatistic(ds[1..])
  }

  /** Index of the first detail that is neither a column nor a statistic, or the
      length when there is none. */
  function FirstUnsupported(ds: seq<Detail>): (k: nat)
    ensures k <= |ds|
    ensures forall j :: 0 <= j < k ==> !ds[j].Unsupported?
    ensures k < |ds| ==> ds[k].Unsupported?
  {
    if ds == [] || ds[0].Unsupported? then 0 else 1 + FirstUnsupported(ds[1..])
  }

  /** What the `i`-th detail tells about the first unsupported detail and the first
      statistic, when neither was met before it. */
  lemma DetailAt(ds: seq<Detail>, i: nat)
    requires i < |ds| && FirstUnsupported(ds) >= i
    ensures ds[i].Unsupported? ==> FirstUnsupported(ds) == i
    ensures !ds[i].Unsupported? ==> FirstUnsupported(ds) > i
    ensures i <= FirstStatistic(ds) ==> (ds[i].Statistic? <==> i == FirstStatistic(ds))
  {
  }

  /** `_get_statements(obj)`: the header, then a blank entry before the first detail,
      another one before the first statistic only, and the details' statements in
      order. The first detail of another kind raises `NotImplementedError`. */
  function Statements(obj: DescribedObject): Result<seq<Option<string>>, Error>
  {
    var ds := obj.additionalDetails;
    var u := FirstUnsupported(ds);
    if u < |ds| then Err(NotImplemented("can not write detail: " + ds[u].description))
    else
      var k := FirstStatistic(ds);
      Ok(Header(obj) + (if ds == [] then [] else [Some("\n")])
         + Ddls(ds[..k]) + (if k < |ds| then [Some("\n")] else []) + Ddls(ds[k..]))
  }

  /** The statements are refused exactly when some detail is of another kind. */
  lemma StatementsRefused(obj: DescribedObject)
    ensures Statements(obj).Err? <==> exists j :: 0 <= j < |obj.additionalDetails| && obj.additionalDetails[j].Unsupported?
  {
    var ds := obj.additionalDetails;
    if Statements(obj).Err? {
      var u := FirstUnsupported(ds);
      assert ds[u].Unsupported?;
    }
  }

  /** The layout of `_get_statements` after the first `i` details `ds`, whose first
      statistic is at `k`: the header, a blank entry before the first detail, the
      details before `k`, a blank entry before the statistic, then the rest. */
  predicate Laid(header: seq<Option<string>>, ds: seq<Detail>, k: nat, s: seq<Option<string>>, i: nat)
    requires i <= |ds|
  {
    var h := |header|;
    && |s| == h + (if i == 0 then 0 else 1) + i + (if i > k then 1 else 0)
    && (forall j :: 0 <= j < h ==> s[j] == header[j])
    && (i > 0 ==> s[h] == Some("\n"))
    && (forall j :: 0 <= j < i && j < k ==> s[h + 1 + j] == DetailDdl(ds[j]))
    && (i > k ==> s[h + 1 + k] == Some("\n"))
    && (forall j :: k <= j < i ==> s[h + 2 + j] == DetailDdl(ds[j]))
  }

  /** Reading one more column or statistic keeps the layout. */
  lemma LaidStep(header: seq<Option<string>>, ds: seq<Detail>, k: nat, s: seq<Option<string>>, i: nat)
    requires i < |ds| && Laid(header, ds, k, s, i)
    requires k <= |ds| && (k < |ds| ==> ds[k].Statistic?) && (i < k ==> !ds[i].Statistic?)
    ensures Laid(header, ds, k, s + (if i == 0 then [Some("\n")] else []) + (if i == k then [Some("\n")] else [])
                 + [DetailDdl(ds[i])], i + 1)
  {
  }

  /** What `Statements` concatenates when the details are not empty: header, blank
      entry, the details before `k`, then `mid` and the rest. */
  function LaidOut(header: seq<Option<string>>, ds: seq<Detail>, k: nat, mid: seq<Option<string>>): seq<Option<string>>
    requires k <= |ds|
  {
    header + [Some("\n")] + Ddls(ds[..k]) + mid + Ddls(ds[k..])
  }

  lemma LaidOutHead(header: seq<Option<string>>, ds: seq<Detail>, k: nat, mid: seq<Option<string>>)
    requires k <= |ds|
    ensures var r := LaidOut(header, ds, k, mid);
      && |r| == |header| + 1 + |ds| + |mid|
      && (forall j :: 0 <= j < |header| ==> r[j] == header[j])
      && r[|header|] == Some("\n")
  {
    var a := header + [Some("\n")];
    var r := LaidOut(header, ds, k, mid);
    assert r == a + (Ddls(ds[..k]) + mid + Ddls(ds[k..]));
    assert r[|header|] == a[|header|];
  }

  lemma LaidOutBefore(header: seq<Option<string>>, ds: seq<Detail>, k: nat, mid: seq<Option<string>>)
    requires k <= |ds|
    ensures var r := LaidOut(header, ds, k, mid);
      forall j :: 0 <= j < k ==> r[|header| + 1 + j] == DetailDdl(ds[j])
  {
    var a := header + [Some("\n")];
    var b := Ddls(ds[..k]);
    var r := LaidOut(header, ds, k, mid);
    assert r == a + b + (mid + Ddls(ds[k..]));
    forall j | 0 <= j < k
      ensures r[|header| + 1 + j] == DetailDdl(ds[j])
    {
      assert r[|a| + j] == b[j];
    }
  }

  lemma LaidOutAfter(header: seq<Option<string>>, ds: seq<Detail>, k: nat)
    requires k < |ds|
    ensures var r := LaidOut(header, ds, k, [Some("\n")]);
      && r[|header| + 1 + k] == Some("\n")
      && forall j :: k <= j < |ds| ==> r[|header| + 2 + j] == DetailDdl(ds[j])
  {
    var ab := header + [Some("\n")] + Ddls(ds[..k]);
    var c := Ddls(ds[k..]);
    var r := LaidOut(header, ds, k, [Some("\n")]);
    assert r == ab + [Some("\n")] + c;
    assert |ab| == |header| + 1 + k;
    forall j | k <= j < |ds|
      ensures r[|header| + 2 + j] == DetailDdl(ds[j])
    {
      assert r[|ab| + 1 + (j - k)] == c[j - k];
    }
  }

  lemma ConcatLaidNonEmpty(header: seq<Option<string>>, ds: seq<Detail>, k: nat, mid: seq<Option<string>>)
    requires k <= |ds| && ds != []
    requires mid == if k < |ds| then [Some("\n")] else []
    ensures Laid(header, ds, k, LaidOut(header, ds, k, mid), |ds|)
  {
    LaidOutHead(header, ds, k, mid);
    LaidOutBefore(header, ds, k, mid);
    if k < |ds| {
      LaidOutAfter(header, ds, k);
    }
  }

  lemma ConcatLaid(header: seq<Option<string>>, ds: seq<Detail>, k: nat)
    requires k <= |ds|
    ensures Laid(header, ds, k, header + (if ds == [] then [] else [Some("\n")])
      + Ddls(ds[..k]) + (if k < |ds| then [Some("\n")] else []) + Ddls(ds[k..]), |ds|)
  {
    if ds == [] {
      assert header + [] + Ddls(ds[..k]) + [] + Ddls(ds[k..]) == header;
    } else {
      var mid := if k < |ds| then [Some("\n")] else [];
      ConcatLaidNonEmpty(header, ds, k, mid);
      assert LaidOut(header, ds, k, mid) == header + [Some("\n")] + Ddls(ds[..k]) + mid + Ddls(ds[k..]);
    }
  }

  /** The statements have that layout once all details are read. */
  lemma StatementsLayout(obj: DescribedObject)
    requires Statements(obj).Ok?
    ensures Laid(Header(obj), obj.additionalDetails, FirstStatistic(obj.additionalDetails),
                 Statements(obj).value, |obj.additionalDetails|)
  {
    ConcatLaid(Header(obj), obj.additionalDetails, FirstStatistic(obj.additionalDetails));
  }

  /** No two sequences share that layout. */
  lemma LaidUnique(header: seq<Option<string>>, ds: seq<Detail>, k: nat, s: seq<Option<string>>, r: seq<Option<string>>)
    requires Laid(header, ds, k, s, |ds|) && Laid(header, ds, k, r, |ds|)
    ensures s == r
  {
    var h := |header|;
    assert |s| == |r|;
    forall j | 0 <= j < |s|
      ensures s[j] == r[j]
    {
      if j < h {
        assert s[j] == header[j] == r[j];
      } else if h < j < h + 1 + k {
        var m := j - h - 1;
        assert s[h + 1 + m] == DetailDdl(ds[m]) == r[h + 1 + m];
      } else if h + 1 + k < j {
        var m := j - h - 2;
        assert s[h + 2 + m] == DetailDdl(ds[m]) == r[h + 2 + m];
      }
    }
  }

  /** `"\n".join(statements)`: a missing statement raises `TypeError`. */
  function JoinLines(entries: seq<Option<string>>): (r: Result<string, Error>)
    ensures r.Err? <==> exists j :: 0 <= j < |entries| && entries[j].None?
  {
    if entries == [] then Ok("")
    else if entries[0].None? then Err(TypeMismatch("sequence item: expected str instance, NoneType found"))
    else if |entries| == 1 then Ok(entries[0].value)
    else
      match JoinLines(entries[1..])
      case Err(e) => Err(e)
      case Ok(rest) => Ok(entries[0].value + "\n" + rest)
  }

  // ---------------------------------------------------------------------------
  // Where an object's file goes

  /** The file name: the lower-cased object name and the type's extension. */
  function FileName(obj: IdentifiedObject): Result<string, Error>
  {
    match TypeToExt(obj.objectType)
    case None => Err(NotImplemented("can not write " + obj.objectType))
    case Some(ext) => Ok(Lower(obj.objectName) + ext)
  }

  /** `Path(p.lower())` for each parent. */
  function Parts(parents: seq<string>): (r: seq<Path>)
    ensures |r| == |parents|
    ensures forall k :: 0 <= k < |parents| ==> r[k] == PathOf(Lower(parents[k]))
  {
    if parents == [] then [] else [PathOf(Lower(parents[0]))] + Parts(parents[1..])
  }

  /** Each part is put in front of what there is so far, so the last is outermost. */
  function Nest(parts: seq<Path>, inner: Path): Path
  {
    if parts == [] then inner
    else JoinPath(parts[|parts| - 1], Nest(parts[..|parts| - 1], inner))
  }

  /** `standardize_subpath(sub, parents)` below the target directory `root`. */
  function Standardized(root: Path, sub: string, parents: seq<string>): Path
  {
    JoinPath(root, Nest(Parts(parents), PathOf(Lower(sub))))
  }

  /** The lower-cased parents, the last one first. */
  function Outer(parents: seq<string>): (r: Path)
    ensures |r| == |parents|
    ensures forall k :: 0 <= k < |parents| ==> r[k] == Lower(parents[|parents| - 1 - k])
  {
    if parents == [] then [] else [Lower(parents[|parents| - 1])] + Outer(parents[..|parents| - 1])
  }

  /** The single components of single-component parts, the last one first. */
  function Heads(parts: seq<Path>): (r: Path)
    requires forall k :: 0 <= k < |parts| ==> |parts[k]| == 1
    ensures |r| == |parts|
    ensures forall k :: 0 <= k < |parts| ==> r[k] == parts[|parts| - 1 - k][0]
  {
    if parts == [] then [] else [parts[|parts| - 1][0]] + Heads(parts[..|parts| - 1])
  }

  lemma {:induction false} NestSingles(parts: seq<Path>, inner: Path)
    requires forall k :: 0 <= k < |parts| ==> |parts[k]| == 1 && parts[k][0] != ""
    requires inner == [] || inner[0] != ""
    ensures Nest(parts, inner) == Heads(parts) + inner
    decreases |parts|
  {
    if parts != [] {
      var n := |parts|;
      var prefix := parts[..n - 1];
      NestSingles(prefix, inner);
      var heads := Heads(prefix);
      var rest := heads + inner;
      assert rest == [] || rest[0] != "" by {
        if heads != [] {
          assert rest[0] == heads[0] == prefix[n - 2][0];
        }
      }
      assert Nest(parts, inner) == parts[n - 1] + rest;
      assert parts[n - 1] == [parts[n - 1][0]];
      assert Heads(parts) == parts[n - 1] + heads;
      AppendAssoc(parts[n - 1], heads, inner);
    }
  }

  /** Plain parents become single non-empty lower-cased components. */
  lemma PartsPlain(parents: seq<string>)
    requires forall k :: 0 <= k < |parents| ==> Plain(parents[k])
    ensures forall k :: 0 <= k < |parents| ==>
      Parts(parents)[k] == [Lower(parents[k])] && Lower(parents[k]) != ""
  {
    forall k | 0 <= k < |parents|
      ensures Parts(parents)[k] == [Lower(parents[k])] && Lower(parents[k]) != ""
    {
      LowerPlain(parents[k]);
      PathOfPlain(Lower(parents[k]));
    }
  }

  /** Single-component parts whose components are `names` read backwards have
      `names` as their heads. */
  lemma HeadsSingles(parts: seq<Path>, names: Path)
    requires |parts| == |names|
    requires forall k :: 0 <= k < |parts| ==> parts[k] == [names[|parts| - 1 - k]]
    ensures Heads(parts) == names
  {
    var n := |parts|;
    forall k | 0 <= k < n
      ensures Heads(parts)[k] == names[k]
    {
      assert parts[n - 1 - k] == [names[k]];
    }
  }

  /** The heads of the parts of plain parents are the parents from the last to
      the first. */
  lemma HeadsOuter(parents: seq<string>)
    requires forall k :: 0 <= k < |parents| ==> Plain(parents[k])
    ensures forall k :: 0 <= k < |parents| ==>
      |Parts(parents)[k]| == 1 && Parts(parents)[k][0] != ""
    ensures Heads(Parts(parents)) == Outer(parents)
  {
    var parts, outer, n := Parts(parents), Outer(parents), |parents|;
    PartsPlain(parents);
    forall k | 0 <= k < n
      ensures parts[k] == [outer[n - 1 - k]]
    {
      assert outer[n - 1 - k] == Lower(parents[k]);
    }
    HeadsSingles(parts, outer);
  }

  /** With plain names the result is the root, the lower-cased parents from the last
      to the first, and the lower-cased subpath. */
  lemma StandardizedPlain(root: Path, sub: string, parents: seq<string>)
    requires Plain(sub)
    requires forall k :: 0 <= k < |parents| ==> Plain(parents[k])
    ensures Standardized(root, sub, parents) == root + Outer(parents) + [Lower(sub)]
  {
    LowerPlain(sub);
    PathOfPlain(Lower(sub));
    var parts := Parts(parents);
    HeadsOuter(parents);
    NestSingles(parts, [Lower(sub)]);
    var nested := Outer(parents) + [Lower(sub)];
    assert Nest(parts, PathOf(Lower(sub))) == nested;
    assert nested[0] != "" by {
      if parents != [] {
        assert nested[0] == Lower(parents[|parents| - 1]);
      }
    }
    assert JoinPath(root, nested) == root + nested;
  }

  // The database names of test/test_databases.py:13-16 hold no `/` and lower-case
  // as the test expects.

  lemma ExampleLowerSto(name: string)
    requires name == "A_STO"
    ensures Plain(name) && Lower(name) == "a_sto"
  {
    LowerOf(name, "a_sto");
  }

  lemma ExampleLowerStg(name: string)
    requires name == "A_STG_PRODUCTION"
    ensures Plain(name) && Lower(name) == "a_stg_production"
  {
    LowerOf(name, "a_stg_production");
  }

  lemma ExampleLowerProd(name: string)
    requires name == "A_PRODUCTION"
    ensures Plain(name) && Lower(name) == "a_production"
  {
    LowerOf(name, "a_production");
  }

  /** test/test_databases.py:75-87: below the target directory `.`, which has no components,
      `A_STO` under the parents `[A_STG_PRODUCTION, A_PRODUCTION]` goes to
      `a_production/a_stg_production/a_sto`. */
  lemma ExampleStandardized(sto: string, stg: string, prod: string)
    requires sto == "A_STO" && stg == "A_STG_PRODUCTION" && prod == "A_PRODUCTION"
    ensures Standardized([], sto, [stg, prod]) == ["a_production", "a_stg_production", "a_sto"]
  {
    ExampleLowerSto(sto);
    ExampleLowerStg(stg);
    ExampleLowerProd(prod);
    var parents := [stg, prod];
    assert forall k :: 0 <= k < |parents| ==> Plain(parents[k]);
    StandardizedPlain([], sto, parents);
    OuterPair(stg, prod);
    assert [] + [Lower(prod), Lower(stg)] + [Lower(sto)] == [Lower(prod), Lower(stg), Lower(sto)];
  }

  lemma OuterPair(first: string, second: string)
    ensures Outer([first, second]) == [Lower(second), Lower(first)]
  {
    assert [first, second][..1] == [first];
  }

  /** The directory always ends in the lower-cased name it was asked for. */
  lemma StandardizedName(root: Path, sub: string, parents: seq<string>)
    requires Plain(sub)
    ensures Name(Standardized(root, sub, parents)) == Lower(sub)
  {
    LowerPlain(sub);
    PathOfPlain(Lower(sub));
    NestName(Parts(parents), [Lower(sub)]);
  }

  lemma {:induction false} NestName(parts: seq<Path>, inner: Path)
    requires inner != []
    ensures Nest(parts, inner) != [] && Name(Nest(parts, inner)) == Name(inner)
    decreases |parts|
  {
    if parts != [] {
      NestName(parts[..|parts| - 1], inner);
    }
  }

  /** Where `write_object` puts the object and what it writes there. */
  function Written(root: Path, obj: DescribedObject, tag: string, parents: seq<string>): Result<(Path, string), Error>
  {
    match FileName(obj.identifiedObject)
    case Err(e) => Err(e)
    case Ok(name) =>
      match Statements(obj)
      case Err(e) => Err(e)
      case Ok(entries) =>
        match JoinLines(entries)
        case Err(e) => Err(e)
        case Ok(text) => Ok((JoinPath(Standardized(root, tag, parents), PathOf(name)), text))
  }

  // ---------------------------------------------------------------------------
  // Which files are stale

  /** `{d.database_name.lower(): d for d in tagged}`: a later database wins. */
  function TagIndex(tagged: seq<DescribedDatabase>): map<string, DescribedDatabase>
  {
    if tagged == [] then map[]
    else
      var last := tagged[|tagged| - 1];
      TagIndex(tagged[..|tagged| - 1])[Lower(last.databaseName) := last]
  }

  /** The tag of an object's database, or the database name when it is untagged. */
  function TagOf(tagged: seq<DescribedDatabase>, database: string): string
  {
    var tags := TagIndex(tagged);
    if Lower(database) in tags then tags[Lower(database)].databaseTag else database
  }

  /** The `tag/file` text under which an existing object is expected. */
  function ExpectedPath(tagged: seq<DescribedDatabase>, obj: IdentifiedObject, ext: string): string
  {
    Lower(TagOf(tagged, obj.databaseName)) + "/" + Lower(obj.objectName) + ext
  }

  /** Index of the first object whose type has no extension, or the length. */
  function FirstUnmapped(existing: seq<IdentifiedObject>): (k: nat)
    ensures k <= |existing|
    ensures forall j :: 0 <= j < k ==> TypeToExt(existing[j].objectType).Some?
    ensures k < |existing| ==> TypeToExt(existing[k].objectType).None?
  {
    if existing == [] || TypeToExt(existing[0].objectType).None? then 0
    else 1 + FirstUnmapped(existing[1..])
  }

  function ExpectedPaths(existing: seq<IdentifiedObject>, tagged: seq<DescribedDatabase>): set<string>
  {
    set o | o in existing && TypeToExt(o.objectType).Some? :: ExpectedPath(tagged, o, TypeToExt(o.objectType).value)
  }

  /** The expected paths of all existing objects; the first object of a type without
      an extension raises `NotImplementedError`. */
  function Expected(existing: seq<IdentifiedObject>, tagged: seq<DescribedDatabase>): Result<set<string>, Error>
  {
    var u := FirstUnmapped(existing);
    if u < |existing| then Err(NotImplemented("can not get expected extension for: " + existing[u].objectType))
    else Ok(ExpectedPaths(existing, tagged))
  }

  lemma FirstUnmappedPast(existing: seq<IdentifiedObject>, i: nat)
    requires i < |existing| && FirstUnmapped(existing) >= i && TypeToExt(existing[i].objectType).Some?
    ensures FirstUnmapped(existing) > i
  {
  }

  lemma ExpectedPathsSnoc(existing: seq<IdentifiedObject>, tagged: seq<DescribedDatabase>, i: nat)
    requires i < |existing| && TypeToExt(existing[i].objectType).Some?
    ensures ExpectedPaths(existing[..i + 1], tagged)
         == ExpectedPaths(existing[..i], tagged) + {ExpectedPath(tagged, existing[i], TypeToExt(existing[i].objectType).value)}
  {
    TakeNext(existing, i);
  }

  /** The lower-cased tags of the databases in scope. */
  function TagsInScope(inScope: seq<DescribedDatabase>): set<string>
  {
    set d | d in inScope :: Lower(d.databaseTag)
  }

  /** A file below `root` is deleted when its extension is managed, its directory is
      a tag in scope, and its `dir/file` is not the path of an existing object. */
  predicate Stale(root: Path, p: Path, expected: set<string>, scope: set<string>)
  {
    && IsRelativeTo(p, root) && |p| > |root|
    && ExtToType(Suffix(Name(p))).Some?
    && Lower(Name(Parent(p))) in scope
    && Lower(Name(Parent(p))) + "/" + Lower(Name(p)) !in expected
  }

  lemma LastDotBeforeExt(a: string, e: string)
    requires ExtShape(e)
    ensures LastDot(a + e) == |a|
  {
    var s := a + e;
    var r := LastDot(s);
    assert s[|a|] == '.';
  }

  /** The file name of an object with a plain name is itself plain and lower case. */
  lemma FileNameShape(o: IdentifiedObject)
    requires TypeToExt(o.objectType).Some?
    requires forall k :: 0 <= k < |o.objectName| ==> o.objectName[k] != '/'
    ensures Plain(FileName(o).value) && Lower(FileName(o).value) == FileName(o).value
  {
    var ext := TypeToExt(o.objectType).value;
    ExtensionsShaped(o.objectType);
    var name := Lower(o.objectName) + ext;
    LowerChars(o.objectName);
    forall k | 0 <= k < |name|
      ensures name[k] != '/'
    {
      if k < |o.objectName| {
        assert name[k] == LowerChar(o.objectName[k]);
      } else {
        assert name[k] == ext[k - |o.objectName|];
      }
    }
    assert name != "." by {
      assert |name| >= |ext| >= 2;
    }
    LowerAppend(Lower(o.objectName), ext);
    LowerIdempotent(o.objectName);
    LowerNoCapitals(ext);
  }

  /** Reading a written file name back gives the object's type from the suffix and its
      lower-cased name from the stem, as the deployer does; an empty name would make a
      dot-file without a suffix. */
  lemma FileNameRoundTrip(o: IdentifiedObject)
    requires TypeToExt(o.objectType).Some? && o.objectName != ""
    ensures Suffix(FileName(o).value) == TypeToExt(o.objectType).value
    ensures ExtToType(Suffix(FileName(o).value)) == Some(o.objectType)
    ensures Stem(FileName(o).value) == Lower(o.objectName)
  {
    var ext := TypeToExt(o.objectType).value;
    ExtensionsShaped(o.objectType);
    LastDotBeforeExt(Lower(o.objectName), ext);
    var name := Lower(o.objectName) + ext;
    assert name[|Lower(o.objectName)|..] == ext;
    assert name[..|Lower(o.objectName)|] == Lower(o.objectName);
    TypeToExtInverse(o.objectType);
  }

  /** The directory and the name of a written file, in lower case, are the tag and the
      lower-cased object name with its extension. */
  lemma WrittenPathShape(root: Path, obj: DescribedObject, tag: string, parents: seq<string>)
    requires Written(root, obj, tag, parents).Ok? && Plain(tag)
    requires forall k :: 0 <= k < |obj.identifiedObject.objectName| ==> obj.identifiedObject.objectName[k] != '/'
    ensures var p := Written(root, obj, tag, parents).value.0;
            && Lower(Name(Parent(p))) == Lower(tag)
            && Lower(Name(p)) == Lower(obj.identifiedObject.objectName) + TypeToExt(obj.identifiedObject.objectType).value
  {
    var o := obj.identifiedObject;
    var name := FileName(o).value;
    var dir := Standardized(root, tag, parents);
    WrittenIn(root, obj, tag, parents);
    StandardizedName(root, tag, parents);
    LowerIdempotent(tag);
    TakeSnoc(dir, name);
    assert Parent(dir + [name]) == dir;
  }

  /** A written file lies directly in the standardized directory, under its file name. */
  lemma WrittenIn(root: Path, obj: DescribedObject, tag: string, parents: seq<string>)
    requires Written(root, obj, tag, parents).Ok?
    requires forall k :: 0 <= k < |obj.identifiedObject.objectName| ==> obj.identifiedObject.objectName[k] != '/'
    ensures FileName(obj.identifiedObject).Ok?
    ensures var name := FileName(obj.identifiedObject).value;
      && Written(root, obj, tag, parents).value.0 == Standardized(root, tag, parents) + [name]
      && Lower(name) == name
      && name == Lower(obj.identifiedObject.objectName) + TypeToExt(obj.identifiedObject.objectType).value
  {
    var name := FileName(obj.identifiedObject).value;
    FileNameShape(obj.identifiedObject);
    PathOfPlain(name);
  }

  /** Every existing object's path is expected, once the expected paths are known. */
  lemma ExpectedContains(existing: seq<IdentifiedObject>, tagged: seq<DescribedDatabase>, o: IdentifiedObject)
    requires o in existing && Expected(existing, tagged).Ok?
    ensures TypeToExt(o.objectType).Some?
    ensures ExpectedPath(tagged, o, TypeToExt(o.objectType).value) in Expected(existing, tagged).value
  {
    var j :| 0 <= j < |existing| && existing[j] == o;
  }

  /** A file written for an object that still exists is not deleted, when the tag it
      was written under is the one the database has and the names are plain. */
  lemma WrittenFileSurvives(root: Path, obj: DescribedObject, tag: string, parents: seq<string>,
                            existing: seq<IdentifiedObject>, tagged: seq<DescribedDatabase>, scope: set<string>)
    requires Written(root, obj, tag, parents).Ok?
    requires obj.identifiedObject in existing && Expected(existing, tagged).Ok?
    requires Plain(tag) && Lower(tag) == Lower(TagOf(tagged, obj.identifiedObject.databaseName))
    requires forall k :: 0 <= k < |obj.identifiedObject.objectName| ==> obj.identifiedObject.objectName[k] != '/'
    ensures !Stale(root, Written(root, obj, tag, parents).value.0, Expected(existing, tagged).value, scope)
  {
    var o := obj.identifiedObject;
    WrittenPathShape(root, obj, tag, parents);
    ExpectedContains(existing, tagged, o);
    AppendAssoc(Lower(TagOf(tagged, o.databaseName)) + "/", Lower(o.objectName), TypeToExt(o.objectType).value);
  }

  // ---------------------------------------------------------------------------
  // The writer

  class FSWriter {
    const targetDir: Path
    var files: map<Path, string>

    constructor (targetDir: Path, files: map<Path, string>)
      ensures this.targetDir == targetDir && this.files == files
    {
      this.targetDir := targetDir;
      this.files := files;
    }

    /** `_get_statements(obj)`. */
    method GetStatements(obj: DescribedObject) returns (r: Result<seq<Option<string>>, Error>)
      ensures r == Statements(obj)
    {
      var ds := obj.additionalDetails;
      ghost var k := FirstStatistic(ds);
      ghost var header := Header(obj);
      var statements := Header(obj);
      var separateStats := true;
      var i := 0;
      while i < |ds|
        invariant 0 <= i <= |ds|
        invariant FirstUnsupported(ds) >= i
        invariant separateStats == (i <= k)
        invariant Laid(header, ds, k, statements, i)
      {
        ghost var before := statements;
        DetailAt(ds, i);
        LaidStep(header, ds, k, before, i);
        ghost var started := before + (if i == 0 then [Some("\n")] else []);
        if i == 0 {
          statements := statements + [Some("\n")];
        }
        assert statements == started;
        match ds[i] {
          case Statistic(s) =>
            ghost var separated := started + (if i == k then [Some("\n")] else []);
            if separateStats {
              statements := statements + [Some("\n")];
              separateStats := false;
            }
            assert statements == separated;
            statements := statements + [Some(s.ddlStatement)];
            assert statements == separated + [DetailDdl(ds[i])];
          case Column(c) =>
            statements := statements + [c.ddlStatement];
            assert i != k && statements == started + [] + [DetailDdl(ds[i])];
          case Unsupported(d) =>
            return Err(NotImplemented("can not write detail: " + d));
        }
        i := i + 1;
      }
      StatementsLayout(obj);
      LaidUnique(header, ds, k, statements, Statements(obj).value);
      return Ok(statements);
    }

    /** `standardize_subpath(sub, parents)`. */
    method StandardizeSubpath(sub: string, parents: seq<string>) returns (r: Path)
      ensures r == Standardized(targetDir, sub, parents)
    {
      var subpath := PathOf(Lower(sub));
      ghost var parts := Parts(parents);
      var i := 0;
      while i < |parents|
        invariant 0 <= i <= |parents|
        invariant subpath == Nest(parts[..i], PathOf(Lower(sub)))
      {
        TakeTake(parts, i, i + 1);
        subpath := JoinPath(PathOf(Lower(parents[i])), subpath);
        i := i + 1;
      }
      TakeAll(parts);
      return JoinPath(targetDir, subpath);
    }

    /** `write_object(obj, database_tag=tag, parent_tags_in_scope=parents)`: on success
        the file gets the joined statements and nothing else changes; on an error
        nothing is written. */
    method WriteObject(obj: DescribedObject, tag: string, parents: seq<string>) returns (r: Result<(), Error>)
      modifies this
      ensures var w := Written(targetDir, obj, tag, parents);
        && (w.Ok? ==> r == Ok(()) && files == old(files)[w.value.0 := w.value.1])
        && (w.Err? ==> r == Err(w.error) && files == old(files))
    {
      var name := FileName(obj.identifiedObject);
      if name.Err? {
        return Err(name.error);
      }
      var dir := StandardizeSubpath(tag, parents);
      var entries := GetStatements(obj);
      if entries.Err? {
        return Err(entries.error);
      }
      var text := JoinLines(entries.value);
      if text.Err? {
        return Err(text.error);
      }
      files := files[JoinPath(dir, PathOf(name.value)) := text.value];
      return Ok(());
    }

    /** The loop of `drop_nonex_objects` that collects the expected paths. */
    method ExpectedObjects(existing: seq<IdentifiedObject>, tagged: seq<DescribedDatabase>) returns (r: Result<set<string>, Error>)
      ensures r == Expected(existing, tagged)
    {
      var expected: set<string> := {};
      var i := 0;
      while i < |existing|
        invariant 0 <= i <= |existing|
        invariant FirstUnmapped(existing) >= i
        invariant expected == ExpectedPaths(existing[..i], tagged)
      {
        var ext := TypeToExt(existing[i].objectType);
        if ext.None? {
          return Err(NotImplemented("can not get expected extension for: " + existing[i].objectType));
        }
        FirstUnmappedPast(existing, i);
        ExpectedPathsSnoc(existing, tagged, i);
        expected := expected + {ExpectedPath(tagged, existing[i], ext.value)};
        i := i + 1;
      }
      TakeAll(existing);
      return Ok(expected);
    }

    /** `drop_nonex_objects(existing, tagged, databases_in_scope=inScope)`: deletes
        exactly the stale files; an object of an unmapped type raises before anything
        is deleted. */
    method DropNonexObjects(existing: seq<IdentifiedObject>, tagged: seq<DescribedDatabase>,
                            inScope: seq<DescribedDatabase>) returns (r: Result<(), Error>)
      modifies this
      ensures var exp := Expected(existing, tagged);
        && (exp.Err? ==> r == Err(exp.error) && files == old(files))
        && (exp.Ok? ==>
              && r == Ok(())
              && (forall p :: p in files <==> p in old(files) && !Stale(targetDir, p, exp.value, TagsInScope(inScope)))
              && (forall p :: p in files ==> files[p] == old(files)[p]))
    {
      var scope := TagsInScope(inScope);
      var exp := ExpectedObjects(existing, tagged);
      if exp.Err? {
        return Err(exp.error);
      }
      var expected := exp.value;
      var todo := files.Keys;
      while todo != {}
        invariant forall p :: p in files <==> p in old(files) && !(p !in todo && Stale(targetDir, p, expected, scope))
        invariant forall p :: p in files ==> files[p] == old(files)[p]
        decreases todo
      {
        var p :| p in todo;
        if Stale(targetDir, p, expected, scope) {
          files := files - {p};
        }
        todo := todo - {p};
      }
      return Ok(());
    }
  }
}
