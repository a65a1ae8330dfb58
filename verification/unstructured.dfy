/**
  Schema-less resource content and the dotted-path lookup that the backup
  actions use to read it.

  The lookup package the Go code calls (pkg/util/collections) is not part of
  this model. It is modelled here under one stated assumption: a dotted path
  is split at every '.' the way Go's strings.Split does, and the resulting
  keys are followed through nested maps. Each step fails when the key is
  absent, or when a value that still has keys after it is not a map; a
  final value that is not a string is a separate failure of GetString.
 */
module Unstructured {
  import opened Wrappers

  /** A node of unstructured content: a nested map, a string, or anything else
      (numbers, booleans, lists and null are not told apart by this model). */
  datatype Value = Map(fields: map<string, Value>) | Str(s: string) | Other

  /** Why a lookup failed. Absence and wrong shape are told apart. */
  datatype LookupError =
    | KeyNotFound(key: string)
    | NotAMap(key: string)
    | NotAString(path: string)

  const PathSeparator: char := '.'

  // ---------------------------------------------------------------------------
  // Dotted paths
  // ---------------------------------------------------------------------------

  /** Splits `s` around every occurrence of `sep`, like Go's strings.Split:
      the empty string gives one empty part, and adjacent or trailing
      separators give empty parts. */
  function Split(s: string, sep: char): (parts: seq<string>)
    ensures |parts| > 0
    ensures forall i :: 0 <= i < |parts| ==> sep !in parts[i]
    decreases |s|
  {
    if |s| == 0 then [""]
    else
      var rest := Split(s[1..], sep);
      if s[0] == sep then [""] + rest
      else [[s[0]] + rest[0]] + rest[1..]
  }

  /** Concatenates `parts` with `sep` between neighbours; the inverse of Split. */
  function Join(parts: seq<string>, sep: char): string
    decreases |parts|
  {
    if |parts| == 0 then ""
    else if |parts| == 1 then parts[0]
    else parts[0] + [sep] + Join(parts[1..], sep)
  }

  /** Joining the parts of a split gives back the original string. */
  lemma {:induction false} JoinSplit(s: string, sep: char)
    ensures Join(Split(s, sep), sep) == s
    decreases |s|
  {
    if |s| > 0 {
      var rest := Split(s[1..], sep);
      JoinSplit(s[1..], sep);
      if s[0] == sep {
        assert Split(s, sep) == [""] + rest;
        assert ([""] + rest)[1..] == rest;
        assert [sep] + s[1..] == s;
      } else {
        var parts := [[s[0]] + rest[0]] + rest[1..];
        assert Split(s, sep) == parts;
        assert parts[1..] == rest[1..];
        if |rest| == 1 {
          assert Join(rest, sep) == rest[0];
        } else {
          assert Join(rest, sep) == rest[0] + [sep] + Join(rest[1..], sep);
        }
        assert [s[0]] + s[1..] == s;
      }
    }
  }

  /** A string without separators splits into itself alone. */
  lemma {:induction false} SplitWithoutSeparator(p: string, sep: char)
    requires sep !in p
    ensures Split(p, sep) == [p]
    decreases |p|
  {
    if |p| > 0 {
      SplitWithoutSeparator(p[1..], sep);
      assert [p[0]] + p[1..] == p;
    }
  }

  /** Splitting `p + sep + t`, where `p` holds no separator, peels `p` off the front. */
  lemma {:induction false} SplitAtFirstSeparator(p: string, t: string, sep: char)
    requires sep !in p
    ensures Split(p + [sep] + t, sep) == [p] + Split(t, sep)
    decreases |p|
  {
    var s := p + [sep] + t;
    if |p| == 0 {
      assert s[0] == sep && s[1..] == t;
    } else {
      SplitAtFirstSeparator(p[1..], t, sep);
      assert s[0] == p[0];
      assert s[1..] == p[1..] + [sep] + t;
      assert [p[0]] + p[1..] == p;
    }
  }

  /** Splitting a join of separator-free parts gives back the parts. */
  lemma {:induction false} SplitJoin(parts: seq<string>, sep: char)
    requires |parts| > 0
    requires forall i :: 0 <= i < |parts| ==> sep !in parts[i]
    ensures Split(Join(parts, sep), sep) == parts
    decreases |parts|
  {
    if |parts| == 1 {
      SplitWithoutSeparator(parts[0], sep);
    } else {
      SplitJoin(parts[1..], sep);
      SplitAtFirstSeparator(parts[0], Join(parts[1..], sep), sep);
      assert [parts[0]] + parts[1..] == parts;
    }
  }

  // ---------------------------------------------------------------------------
  // Lookup
  // ---------------------------------------------------------------------------

  /** Follows `keys` from the map `current`. With no keys left the map itself
      is the value; every key but the last must lead to a map. */
  function Walk(current: map<string, Value>, keys: seq<string>): (r: Result<Value, LookupError>)
    ensures r.Err? ==> (r.error.KeyNotFound? || r.error.NotAMap?) && r.error.key in keys
    ensures r.Err? && r.error.NotAMap? ==> r.error.key in keys[..|keys| - 1]
    decreases |keys|
  {
    if |keys| == 0 then Ok(Map(current))
    else if keys[0] !in current then Err(KeyNotFound(keys[0]))
    else if |keys| == 1 then Ok(current[keys[0]])
    else
      match current[keys[0]]
      case Map(m) =>
        var r := Walk(m, keys[1..]);
        assert r.Err? ==> r.error.key in keys;
        assert r.Err? && r.error.NotAMap? ==> r.error.key in keys[..|keys| - 1] by {
          assert keys[1..][..|keys| - 2] == keys[1..|keys| - 1];
        }
        r
      case _ => Err(NotAMap(keys[0]))
  }

  /** The value found at the dotted `path` below `root`. */
  function GetValue(root: map<string, Value>, path: string): (r: Result<Value, LookupError>)
    ensures PathSeparator !in path ==>
      r == if path in root then Ok(root[path]) else Err(KeyNotFound(path))
    ensures r.Err? ==> !r.error.NotAString? && r.error.key in Split(path, PathSeparator)
  {
    var keys := Split(path, PathSeparator);
    if PathSeparator !in path then
      SplitWithoutSeparator(path, PathSeparator);
      Walk(root, keys)
    else
      Walk(root, keys)
  }

  /** The string found at the dotted `path` below `root`; any other value is a failure. */
  function GetString(root: map<string, Value>, path: string): (r: Result<string, LookupError>)
    ensures r.Ok? <==> GetValue(root, path).Ok? && GetValue(root, path).value.Str?
    ensures r.Ok? ==> GetValue(root, path).value == Str(r.value)
    ensures GetValue(root, path).Err? ==> r == Err(GetValue(root, path).error)
  {
    match GetValue(root, path)
    case Err(e) => Err(e)
    case Ok(Str(s)) => Ok(s)
    case Ok(_) => Err(NotAString(path))
  }

  /** Walking a longer path is walking its prefix, then the rest from wherever
      the prefix led; a prefix that ends on a non-map stops the walk there. */
  lemma {:induction false} WalkAppend(root: map<string, Value>, p: seq<string>, q: seq<string>)
    requires |q| > 0
    ensures Walk(root, p + q) ==
      match Walk(root, p)
      case Err(e) => Err(e)
      case Ok(Map(m)) => Walk(m, q)
      case Ok(_) => Err(NotAMap(if |p| > 0 then p[|p| - 1] else ""))
    decreases |p|
  {
    if |p| == 0 {
      assert p + q == q;
    } else {
      var k := p[0];
      assert (p + q)[0] == k;
      assert (p + q)[1..] == p[1..] + q;
      if k in root && |p| > 1 {
        match root[k]
        case Map(m) => WalkAppend(m, p[1..], q);
        case _ =>
      }
    }
  }

  /** A walk reads only the entry for its first key: changing any other entry
      of the root map leaves the result alone. */
  lemma WalkIgnoresOtherKeys(root: map<string, Value>, keys: seq<string>, k: string, v: Value)
    requires |keys| > 0 && k != keys[0]
    ensures Walk(root[k := v], keys) == Walk(root, keys)
  {
  }
}
