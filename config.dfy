/** The configuration dictionaries: the nested dict built from environment variables,
    the deep merge of the configuration sources, the censoring of secrets, the version
    check that follows the merge, and the lookup of a named environment. Reading the
    files, parsing TOML and structuring the result into typed records are not part of
    this model: the sources arrive as parsed dictionaries. */
module Config {
  import opened Wrappers
  import opened Strings
  import opened Errors
  import Order

  const PartsDelimiter := "__"
  const Secrets: seq<string> := ["password"]
  const Redacted := "<redacted>"
  const EnvironPrefix := "DBLOCKS_"
  const ExpectedConfigVersion := "1.0.0"

  /** A configuration value: a scalar, held as its printed text, a list, or a dict. */
  datatype Value = Leaf(text: string) | List(items: seq<Value>) | Dict(entries: map<string, Value>)

  type Entries = map<string, Value>

  /** The value at a path of keys, if every key on the way is a key of a dict. */
  function Get(v: Value, path: seq<string>): Option<Value>
    decreases |path|
  {
    if path == [] then Some(v)
    else match v
      case Dict(m) => if path[0] in m then Get(m[path[0]], path[1..]) else None
      case _ => None
  }

  // ---------------------------------------------------------------------------
  // from_environ_dict

  /** The `TypeError` raised when the key path runs into a string: assigning into it
      fails, and so does indexing it by a part the string happens to contain. */
  function StrError(s: string, next: string, last: bool): Error
  {
    if !last && ContainsSubstring(s, next) then TypeMismatch("string indices must be integers, not 'str'")
    else TypeMismatch("'str' object does not support item assignment")
  }

  const ListError := TypeMismatch("list indices must be integers or slices, not str")

  /** The walk of the `write_to` cursor along the parts of a key: missing dicts are
      created on the way and the value is stored under the last part. */
  function Put(d: Entries, parts: seq<string>, v: string): Result<Entries, Error>
    requires |parts| > 0
    decreases |parts|
  {
    var k := parts[0];
    if |parts| == 1 then Ok(d[k := Leaf(v)])
    else
      match (if k in d then d[k] else Dict(map[]))
      case Dict(m) =>
        (match Put(m, parts[1..], v)
         case Ok(m') => Ok(d[k := Dict(m')])
         case Err(e) => Err(e))
      case Leaf(s) => Err(StrError(s, parts[1], |parts| == 2))
      case List(_) => Err(ListError)
  }

  /** After a successful walk the value sits at the key path. */
  lemma {:induction false} PutGet(d: Entries, parts: seq<string>, v: string)
    requires |parts| > 0 && Put(d, parts, v).Ok?
    ensures Get(Dict(Put(d, parts, v).value), parts) == Some(Leaf(v))
    decreases |parts|
  {
    if |parts| > 1 {
      var k := parts[0];
      var m := (if k in d then d[k] else Dict(map[])).entries;
      PutGet(m, parts[1..], v);
    }
  }

  /** Paths that part ways with the key path keep their values. */
  lemma {:induction false} PutKeepsOthers(d: Entries, parts: seq<string>, v: string, q: seq<string>, j: nat)
    requires |parts| > 0 && Put(d, parts, v).Ok?
    requires j < |parts| && j < |q| && parts[..j] == q[..j] && parts[j] != q[j]
    ensures Get(Dict(Put(d, parts, v).value), q) == Get(Dict(d), q)
    decreases |parts|
  {
    if j > 0 {
      var k := parts[0];
      assert q[0] == parts[..j][0];
      var m := (if k in d then d[k] else Dict(map[])).entries;
      assert parts[1..][..j - 1] == q[1..][..j - 1];
      PutKeepsOthers(m, parts[1..], v, q[1..], j - 1);
      if k !in d {
        EmptyGet(q[1..]);
      }
    }
  }

  lemma EmptyGet(q: seq<string>)
    requires q != []
    ensures Get(Dict(map[]), q) == None
  {
  }

  /** Some proper prefix of the key path reaches a value that is not a dict. */
  predicate BlockedAt(d: Entries, parts: seq<string>, j: nat)
    requires j < |parts|
  {
    match Get(Dict(d), parts[..j]) case Some(x) => !x.Dict? case None => false
  }

  /** The walk fails exactly when a proper prefix of the key path reaches a string or a
      list. */
  lemma {:induction false} PutFails(d: Entries, parts: seq<string>, v: string)
    requires |parts| > 0
    ensures Put(d, parts, v).Err? <==> exists j :: 1 <= j < |parts| && BlockedAt(d, parts, j)
    decreases |parts|
  {
    if |parts| > 1 {
      var k := parts[0];
      var rest := parts[1..];
      assert forall j :: 1 <= j < |parts| ==> parts[..j] == [k] + rest[..j - 1];
      if k in d && d[k].Dict? {
        PutFails(d[k].entries, rest, v);
        forall j | 1 <= j < |parts| ensures BlockedAt(d, parts, j) == (j >= 2 && BlockedAt(d[k].entries, rest, j - 1)) {
          assert Get(Dict(d), parts[..j]) == Get(d[k], rest[..j - 1]);
        }
        if Put(d[k].entries, rest, v).Err? {
          var j :| 1 <= j < |rest| && BlockedAt(d[k].entries, rest, j);
          assert BlockedAt(d, parts, j + 1);
        }
      } else if k in d {
        assert BlockedAt(d, parts, 1) by {
          assert parts[..1] == [k];
          assert Get(Dict(d), [k]) == Some(d[k]);
        }
      } else {
        assert Put(d, parts, v).Ok? by {
          PutIntoEmpty(rest, v);
        }
        forall j | 1 <= j < |parts| ensures !BlockedAt(d, parts, j) {
          assert parts[..j][0] == k;
        }
      }
    }
  }

  lemma {:induction false} PutIntoEmpty(parts: seq<string>, v: string)
    requires |parts| > 0
    ensures Put(map[], parts, v).Ok?
    decreases |parts|
  {
    if |parts| > 1 {
      PutIntoEmpty(parts[1..], v);
    }
  }

  /** The key parts of an environment variable: the lower-cased name without the
      lower-cased prefix, split on "__"; `None` when the name lacks the prefix. */
  function EnvKeyParts(prefix: string, key: string): Option<seq<string>>
  {
    var k := Lower(key);
    var p := Lower(prefix);
    if StartsWith(k, p) then Some(Split(k[|p|..], PartsDelimiter)) else None
  }

  /** `from_environ_dict(prefix, env)`, over the variables in their order. */
  function FromEnviron(prefix: string, env: seq<(string, string)>): Result<Entries, Error>
    decreases |env|
  {
    if env == [] then Ok(map[])
    else
      match FromEnviron(prefix, env[..|env| - 1])
      case Err(e) => Err(e)
      case Ok(d) =>
        var (k, v) := env[|env| - 1];
        match EnvKeyParts(prefix, k)
        case None => Ok(d)
        case Some(parts) => Put(d, parts, v)
  }

  predicate HasPrefix(prefix: string, kv: (string, string))
  {
    EnvKeyParts(prefix, kv.0).Some?
  }

  /** Variables whose name does not start with the prefix, in any case, play no part. */
  lemma {:induction false} FromEnvironIgnoresOthers(prefix: string, env: seq<(string, string)>)
    ensures FromEnviron(prefix, env) == FromEnviron(prefix, Order.Filter(env, kv => HasPrefix(prefix, kv)))
    decreases |env|
  {
    if env != [] {
      var init := env[..|env| - 1];
      var last := env[|env| - 1];
      FromEnvironIgnoresOthers(prefix, init);
      Order.FilterSnoc(env, kv => HasPrefix(prefix, kv));
      var kept := Order.Filter(init, kv => HasPrefix(prefix, kv));
      if HasPrefix(prefix, last) {
        assert (kept + [last])[..|kept|] == kept;
      } else {
        assert kept + [] == kept;
      }
    }
  }

  /** A variable named by the prefix, a lower-case part without "_", "__" and another
      such part ends up as a dict of one dict holding the value. */
  lemma FromEnvironNests(prefix: string, key: string, a: string, b: string, v: string)
    requires Lower(key) == Lower(prefix) + a + "__" + b
    requires forall c :: c in a ==> c != '_'
    requires forall c :: c in b ==> c != '_'
    ensures FromEnviron(prefix, [(key, v)]) == Ok(map[a := Dict(map[b := Leaf(v)])])
  {
    NestedParts(prefix, key, a, b);
    FromEnvironOne(prefix, key, v);
    PutTwo(a, b, v);
  }

  /** `DBLOCKS_DATABASE__HOST=localhost` gives `{"database": {"host": "localhost"}}`. */
  lemma ExampleDatabaseHost()
    ensures FromEnviron(EnvironPrefix, [(EnvironPrefix + "DATABASE__HOST", "localhost")])
      == Ok(map["database" := Dict(map["host" := Leaf("localhost")])])
  {
    LowerDatabaseHost(EnvironPrefix, "DATABASE__HOST");
    NoUnderscore("database");
    NoUnderscore("host");
    FromEnvironNests(EnvironPrefix, EnvironPrefix + "DATABASE__HOST", "database", "host", "localhost");
  }

  lemma NoUnderscore(s: string)
    requires s in {"database", "host"}
    ensures forall c :: c in s ==> c != '_'
  {
  }

  lemma LowerDatabaseHost(prefix: string, s: string)
    requires s == "DATABASE__HOST"
    ensures Lower(prefix + s) == Lower(prefix) + "database" + "__" + "host"
  {
    var t := "database__host";
    LowerAppend(prefix, s);
    LowerDatabase(s, t);
    assert t == "database" + "__" + "host";
  }

  lemma LowerDatabase(s: string, t: string)
    requires s == "DATABASE__HOST" && t == "database__host"
    ensures Lower(s) == t
  {
    LowerChars(s);
    DatabaseChars(s, t);
  }

  lemma DatabaseChars(s: string, t: string)
    requires s == "DATABASE__HOST" && t == "database__host"
    ensures forall i :: 0 <= i < |s| ==> t[i] == LowerChar(s[i])
  {
    forall i | 0 <= i < |s| ensures t[i] == LowerChar(s[i]) {
      if i == 0 { } else if i == 1 { } else if i == 2 { } else if i == 3 { } else if i == 4 { } else if i == 5 { } else if i == 6 { }
      else if i == 7 { } else if i == 8 { } else if i == 9 { } else if i == 10 { } else if i == 11 { } else if i == 12 { }
    }
  }

  lemma NestedParts(prefix: string, key: string, a: string, b: string)
    requires Lower(key) == Lower(prefix) + a + "__" + b
    requires forall c :: c in a ==> c != '_'
    requires forall c :: c in b ==> c != '_'
    ensures EnvKeyParts(prefix, key) == Some([a, b])
  {
    var lk := Lower(key);
    var lp := Lower(prefix);
    assert StartsWith(lk, lp) by {
      assert lk[..|lp|] == lp;
    }
    assert lk[|lp|..] == a + "__" + b;
    SplitAround(a, b);
  }

  lemma FromEnvironOne(prefix: string, key: string, v: string)
    requires EnvKeyParts(prefix, key).Some?
    ensures FromEnviron(prefix, [(key, v)]) == Put(map[], EnvKeyParts(prefix, key).value, v)
  {
    assert [(key, v)][..0] == [];
  }

  lemma PutTwo(a: string, b: string, v: string)
    ensures Put(map[], [a, b], v) == Ok(map[a := Dict(map[b := Leaf(v)])])
  {
    assert [a, b][1..] == [b];
  }

  /** Splitting `a + "__" + b` on "__" gives the two parts when neither holds "_". */
  lemma SplitAround(a: string, b: string)
    requires forall c :: c in a ==> c != '_'
    requires forall c :: c in b ==> c != '_'
    ensures Split(a + "__" + b, "__") == [a, b]
  {
    var s := a + "__" + b;
    forall k: nat | k < |a| ensures !OccursAt(s, "__", k) {
      assert s[k] == a[k] && a[k] in a;
      assert k + 2 <= |s| ==> s[k..k + 2][0] == s[k];
    }
    assert OccursAt(s, "__", |a|) by {
      assert s[|a|..|a| + 2] == "__";
    }
    assert FindFrom(s, "__", 0) == Some(|a|);
    assert s[|a| + 2..] == b;
    forall k: nat ensures !OccursAt(b, "__", k) {
      if k < |b| {
        assert b[k] in b;
        assert k + 2 <= |b| ==> b[k..k + 2][0] == b[k];
      }
    }
    assert FindFrom(b, "__", 0) == None;
    assert Split(b, "__") == [b];
    assert s[..|a|] == a;
  }

  /** `from_environ_dict`: the variables are visited in order and each one with the
      prefix is stored along its key path; a `TypeError` ends the walk. */
  method FromEnvironDict(prefix: string, env: seq<(string, string)>) returns (r: Result<Entries, Error>)
    ensures r == FromEnviron(prefix, env)
  {
    var retVal: Entries := map[];
    for i := 0 to |env|
      invariant FromEnviron(prefix, env[..i]) == Ok(retVal)
    {
      assert env[..i + 1][..i] == env[..i];
      var (k, v) := env[i];
      var parts := EnvKeyParts(prefix, k);
      if parts.None? {
        continue;
      }
      var put := Put(retVal, parts.value, v);
      if put.Err? {
        assert FromEnviron(prefix, env[..i + 1]).Err?;
        FromEnvironErrSticks(prefix, env, i + 1);
        return put.PropagateFailure();
      }
      retVal := put.value;
    }
    assert env[..|env|] == env;
    r := Ok(retVal);
  }

  /** Once the walk has failed on a prefix of the variables, it fails on all of them
      with the same error. */
  lemma {:induction false} FromEnvironErrSticks(prefix: string, env: seq<(string, string)>, n: nat)
    requires n <= |env| && FromEnviron(prefix, env[..n]).Err?
    ensures FromEnviron(prefix, env) == FromEnviron(prefix, env[..n])
    decreases |env| - n
  {
    if n < |env| {
      assert env[..n + 1][..n] == env[..n];
      FromEnvironErrSticks(prefix, env, n + 1);
    } else {
      assert env[..n] == env;
    }
  }

  // ---------------------------------------------------------------------------
  // deep_merge_dicts

  /** `deep_merge_dicts(dict1, dict2)`: every key of either; a key of both whose
      values are both dicts is merged recursively, any other key of `dict2` takes
      `dict2`'s value, and a key of `dict1` alone keeps its value. The first argument
      is a value, so it is left as it is, as the copy in the code ensures. */
  function Merge(d1: Entries, d2: Entries): (r: Entries)
    ensures r.Keys == d1.Keys + d2.Keys
    decreases Dict(d2)
  {
    map k | k in d1.Keys + d2.Keys ::
      if k in d2 then
        if k in d1 && d1[k].Dict? && d2[k].Dict? then Dict(Merge(d1[k].entries, d2[k].entries)) else d2[k]
      else d1[k]
  }

  /** Merging with an empty dict, on either side, changes nothing. */
  lemma MergeEmpty(d: Entries)
    ensures Merge(d, map[]) == d && Merge(map[], d) == d
  {
  }

  /** Merging a dict with itself gives it back. */
  lemma {:induction false} MergeSelf(d: Entries)
    ensures Merge(d, d) == d
    decreases Dict(d)
  {
    forall k | k in d && d[k].Dict? ensures Merge(d[k].entries, d[k].entries) == d[k].entries {
      MergeSelf(d[k].entries);
    }
  }

  /** A scalar or a list that the later dict holds at a path is what the merge holds
      there: later sources override earlier ones. */
  lemma {:induction false} MergeLaterWins(d1: Entries, d2: Entries, p: seq<string>)
    requires p != [] && Get(Dict(d2), p).Some? && !Get(Dict(d2), p).value.Dict?
    ensures Get(Dict(Merge(d1, d2)), p) == Get(Dict(d2), p)
    decreases |p|
  {
    var k := p[0];
    if |p| > 1 && k in d1 && d1[k].Dict? && d2[k].Dict? {
      MergeLaterWins(d1[k].entries, d2[k].entries, p[1..]);
    }
  }

  /** A key of both dicts whose two values are dicts holds the merge of those dicts. */
  lemma MergeBothDicts(d1: Entries, d2: Entries, k: string)
    requires k in d1 && k in d2 && d1[k].Dict? && d2[k].Dict?
    ensures Merge(d1, d2)[k] == Dict(Merge(d1[k].entries, d2[k].entries))
  {
  }

  /** Both dicts hold a dict at the path. */
  ghost predicate DictsAlong(d1: Entries, d2: Entries, q: seq<string>)
  {
    && Get(Dict(d1), q).Some? && Get(Dict(d1), q).value.Dict?
    && Get(Dict(d2), q).Some? && Get(Dict(d2), q).value.Dict?
  }

  /** Where both dicts hold dicts along a path up to its `j`-th key and the later dict
      lacks that key, the merge holds what the earlier dict holds at the path: nested
      values of the earlier dict survive a merge that does not name them. */
  lemma {:induction false} MergeEarlierStays(d1: Entries, d2: Entries, p: seq<string>, j: nat)
    requires j < |p|
    requires forall i :: 0 <= i <= j ==> DictsAlong(d1, d2, p[..i])
    requires Get(Dict(d2), p[..j + 1]).None?
    ensures Get(Dict(Merge(d1, d2)), p) == Get(Dict(d1), p)
    decreases j
  {
    var k := p[0];
    assert p[..1] == [k];
    if j == 0 {
      assert k !in d2;
    } else {
      assert DictsAlong(d1, d2, p[..1]);
      assert k in d1 && k in d2;
      assert Get(Dict(d1), p[..1]) == Some(d1[k]) && Get(Dict(d2), p[..1]) == Some(d2[k]) by {
        GetPrefix(d1, p, 0);
        GetPrefix(d2, p, 0);
      }
      var e1, e2 := d1[k].entries, d2[k].entries;
      forall i | 0 <= i <= j - 1 ensures DictsAlong(e1, e2, p[1..][..i]) {
        assert DictsAlong(d1, d2, p[..i + 1]);
        GetPrefix(d1, p, i);
        GetPrefix(d2, p, i);
      }
      GetPrefix(d2, p, j);
      MergeEarlierStays(e1, e2, p[1..], j - 1);
      MergeBothDicts(d1, d2, k);
    }
  }

  /** Reading a path below a key of a dict reads the rest of the path in that key's value. */
  lemma GetPrefix(m: Entries, p: seq<string>, i: nat)
    requires i < |p| && p[0] in m
    ensures Get(Dict(m), p[..i + 1]) == Get(m[p[0]], p[1..][..i])
  {
    assert p[..i + 1][0] == p[0];
    assert p[..i + 1][1..] == p[1..][..i];
  }

  // ---------------------------------------------------------------------------
  // _censore_keys

  /** `_censore_keys(data, keys, placeholder)`: the value of every listed key, at any
      depth of nested dicts, is the placeholder; dicts inside lists are not visited. */
  function Censored(d: Entries, keys: seq<string>, placeholder: string): (r: Entries)
    ensures r.Keys == d.Keys
    decreases Dict(d)
  {
    map k | k in d ::
      if k in keys then Leaf(placeholder)
      else if d[k].Dict? then Dict(Censored(d[k].entries, keys, placeholder))
      else d[k]
  }

  /** `_censore_keys`: every item of the dict is visited; a listed key gets the
      placeholder, and a dict value is censored in its turn. The code censors the old
      dict of a listed key too, which no longer hangs in the result. */
  method CensoreKeys(data: Entries, keys: seq<string>, placeholder: string) returns (r: Entries)
    ensures r == Censored(data, keys, placeholder)
    decreases Dict(data)
  {
    r := data;
    var todo := data.Keys;
    while todo != {}
      invariant todo <= data.Keys && r.Keys == data.Keys
      invariant forall k :: k in todo ==> r[k] == data[k]
      invariant forall k :: k in data && k !in todo ==> r[k] == Censored(data, keys, placeholder)[k]
      decreases todo
    {
      var k :| k in todo;
      var v := data[k];
      if k in keys {
        r := r[k := Leaf(placeholder)];
      }
      if v.Dict? {
        var inner := CensoreKeys(v.entries, keys, placeholder);
        if k !in keys {
          r := r[k := Dict(inner)];
        }
      }
      todo := todo - {k};
    }
  }

  /** No listed key keeps its value: at any path ending in a listed key there is
      nothing or the placeholder. */
  lemma {:induction false} CensoredHidesSecrets(d: Entries, keys: seq<string>, placeholder: string, p: seq<string>)
    requires p != [] && p[|p| - 1] in keys
    ensures Get(Dict(Censored(d, keys, placeholder)), p) in {None, Some(Leaf(placeholder))}
    decreases |p|
  {
    var c := Censored(d, keys, placeholder);
    var k := p[0];
    if |p| > 1 && k in d && k !in keys && d[k].Dict? {
      CensoredHidesSecrets(d[k].entries, keys, placeholder, p[1..]);
    }
  }

  /** A scalar or a list reached by keys none of which is listed is left as it is;
      in particular lists are not searched for dicts. */
  lemma {:induction false} CensoredKeepsOthers(d: Entries, keys: seq<string>, placeholder: string, p: seq<string>)
    requires p != [] && forall j :: 0 <= j < |p| ==> p[j] !in keys
    requires Get(Dict(d), p).Some? && !Get(Dict(d), p).value.Dict?
    ensures Get(Dict(Censored(d, keys, placeholder)), p) == Get(Dict(d), p)
    decreases |p|
  {
    var k := p[0];
    if |p| > 1 {
      CensoredKeepsOthers(d[k].entries, keys, placeholder, p[1..]);
    }
  }

  /** Censoring twice is censoring once. */
  lemma {:induction false} CensoredIdempotent(d: Entries, keys: seq<string>, placeholder: string)
    ensures Censored(Censored(d, keys, placeholder), keys, placeholder) == Censored(d, keys, placeholder)
    decreases Dict(d)
  {
    var c := Censored(d, keys, placeholder);
    forall k | k in d && k !in keys && d[k].Dict?
      ensures Censored(c[k].entries, keys, placeholder) == c[k].entries
    {
      CensoredIdempotent(d[k].entries, keys, placeholder);
    }
  }

  // ---------------------------------------------------------------------------
  // load_config: merge and version check

  /** The sources merged one after the other into `acc`. */
  function MergeAll(acc: Entries, sources: seq<Entries>): Entries
    decreases |sources|
  {
    if sources == [] then acc else MergeAll(Merge(acc, sources[0]), sources[1..])
  }

  lemma {:induction false} MergeAllLast(acc: Entries, sources: seq<Entries>, last: Entries)
    ensures MergeAll(acc, sources + [last]) == Merge(MergeAll(acc, sources), last)
    decreases |sources|
  {
    if sources != [] {
      assert (sources + [last])[1..] == sources[1..] + [last];
      MergeAllLast(Merge(acc, sources[0]), sources[1..], last);
    } else {
      assert [last][1..] == [];
    }
  }

  /** How the version is shown in the message: its text; a dict or a list is shown
      by a marker. */
  function Shown(v: Value): string
  {
    match v
    case Leaf(t) => t
    case List(_) => "[...]"
    case Dict(_) => "{...}"
  }

  function VersionError(version: Value): Error
  {
    ConfigError("Incorrect config version.\n- expected: " + ExpectedConfigVersion + "\n- got: " + Shown(version))
  }

  /** The version of a merged configuration; a missing one counts as "". */
  function Version(merged: Entries): Value
  {
    if "config_version" in merged then merged["config_version"] else Leaf("")
  }

  /** `load_config`, given the parsed files in location order and the environment:
      the environment's dict comes last, the sources are merged in order, and the
      result must carry the expected version. */
  function Load(files: seq<Entries>, prefix: string, env: seq<(string, string)>): Result<Entries, Error>
  {
    match FromEnviron(prefix, env)
    case Err(e) => Err(e)
    case Ok(fromEnv) =>
      var merged := MergeAll(map[], files + [fromEnv]);
      if Version(merged) != Leaf(ExpectedConfigVersion) then Err(VersionError(Version(merged)))
      else Ok(merged)
  }

  /** A configuration is accepted exactly when the environment walk succeeds and the
      merged version is "1.0.0"; a value the environment sets overrides every file. */
  lemma LoadOutcome(files: seq<Entries>, prefix: string, env: seq<(string, string)>, p: seq<string>)
    requires FromEnviron(prefix, env).Ok?
    ensures var merged := MergeAll(map[], files + [FromEnviron(prefix, env).value]);
      Load(files, prefix, env).Ok? <==> Version(merged) == Leaf("1.0.0")
    ensures var fromEnv := FromEnviron(prefix, env).value;
      p != [] && Get(Dict(fromEnv), p).Some? && !Get(Dict(fromEnv), p).value.Dict? ==>
        Get(Dict(MergeAll(map[], files + [fromEnv])), p) == Get(Dict(fromEnv), p)
  {
    var fromEnv := FromEnviron(prefix, env).value;
    MergeAllLast(map[], files, fromEnv);
    if p != [] && Get(Dict(fromEnv), p).Some? && !Get(Dict(fromEnv), p).value.Dict? {
      MergeLaterWins(MergeAll(map[], files), fromEnv, p);
    }
  }

  /** With no file and no variable the version is missing and the load fails. */
  lemma LoadNeedsVersion(prefix: string)
    ensures Load([], prefix, []) == Err(ConfigError("Incorrect config version.\n- expected: 1.0.0\n- got: "))
  {
    var none: Entries := map[];
    assert FromEnviron(prefix, []) == Ok(none);
    assert MergeAll(none, [] + [none]) == none by {
      assert [] + [none] == [none];
      MergeEmpty(none);
    }
    assert Version(none) == Leaf("");
    assert "Incorrect config version.\n- expected: " + ExpectedConfigVersion + "\n- got: " + Shown(Leaf(""))
      == "Incorrect config version.\n- expected: 1.0.0\n- got: ";
  }

  /** `load_config`: the loop that merges the sources in order, then the version
      check. */
  method LoadConfig(files: seq<Entries>, prefix: string, env: seq<(string, string)>) returns (r: Result<Entries, Error>)
    ensures r == Load(files, prefix, env)
  {
    var fromEnv := FromEnvironDict(prefix, env);
    if fromEnv.Err? {
      return fromEnv.PropagateFailure();
    }
    var sources := files + [fromEnv.value];
    var configDict: Entries := map[];
    for i := 0 to |sources|
      invariant MergeAll(configDict, sources[i..]) == MergeAll(map[], sources)
    {
      assert sources[i..][1..] == sources[i + 1..];
      configDict := Merge(configDict, sources[i]);
    }
    var version := Leaf("");
    if "config_version" in configDict {
      version := configDict["config_version"];
    }
    if version != Leaf(ExpectedConfigVersion) {
      return Err(VersionError(version));
    }
    r := Ok(configDict);
  }

  // ---------------------------------------------------------------------------
  // get_environment_from_config

  function Names<T>(envs: seq<(string, T)>): seq<string>
  {
    if envs == [] then [] else [envs[0].0] + Names(envs[1..])
  }

  /** `get_environment_from_config(cfg, name)`: the environment of that name, or a
      `DConfigError` listing the names there are. */
  function GetEnvironment<T>(envs: seq<(string, T)>, name: string): (r: Result<T, Error>)
    ensures r.Ok? <==> name in Names(envs)
    ensures r.Ok? ==> exists i :: 0 <= i < |envs| && envs[i] == (name, r.value)
    ensures r.Err? ==> r.error == ConfigError("Did not find envieonment: " + name +
      ". Did you mean one of " + ShownList(Names(envs)) + "?")
    decreases |envs|
  {
    if envs == [] then Err(ConfigError("Did not find envieonment: " + name + ". Did you mean one of " + ShownList([]) + "?"))
    else if envs[0].0 == name then Ok(envs[0].1)
    else
      match GetEnvironment(envs[1..], name)
      case Ok(t) => Ok(t)
      case Err(_) => Err(ConfigError("Did not find envieonment: " + name + ". Did you mean one of " + ShownList(Names(envs)) + "?"))
  }
}
