/** The configuration singleton: the parsed YAML document, dotted-key
    lookup with a default, and the typed settings read through it.

    The document is given as a value (reading and parsing the file are
    not modelled); a missing file is `None`. */
module Config {
  import opened Wrappers

  /** A parsed YAML value. */
  datatype Value =
    | Dict(entries: map<string, Value>)
    | List(items: seq<Value>)
    | Str(s: string)
    | Int(i: int)
    | Null

  const EmptyDict: Value := Dict(map[])

  /* ---- `key.split('.')` ---- */

  /** `sep.join(parts)`. */
  function Join(parts: seq<string>, sep: char): string
    requires |parts| >= 1
    decreases |parts|
  {
    if |parts| == 1 then parts[0] else parts[0] + [sep] + Join(parts[1..], sep)
  }

  predicate SepFree(parts: seq<string>, sep: char) {
    forall i :: 0 <= i < |parts| ==> sep !in parts[i]
  }

  /** `s.split(sep)`: the pieces between separators, empty pieces
      included, so there is always at least one. */
  function Split(s: string, sep: char): (parts: seq<string>)
    ensures |parts| >= 1
    ensures SepFree(parts, sep)
    ensures Join(parts, sep) == s
    decreases |s|
  {
    if s == [] then [""]
    else
      var rest := Split(s[1..], sep);
      if s[0] == sep then
        assert Join([""] + rest, sep) == [sep] + Join(rest, sep) by {
          assert ([""] + rest)[1..] == rest;
        }
        assert s == [s[0]] + s[1..];
        [""] + rest
      else
        var parts := [[s[0]] + rest[0]] + rest[1..];
        assert parts[1..] == rest[1..];
        assert s == [s[0]] + s[1..];
        parts
  }

  /** A separator-free start joins the first piece of the rest. */
  lemma {:induction false} SplitSepFreePrefix(x: string, tail: string, sep: char)
    requires sep !in x
    ensures Split(x + tail, sep) == [x + Split(tail, sep)[0]] + Split(tail, sep)[1..]
    decreases |x|
  {
    if x != [] {
      var x' := x[1..];
      assert (x + tail)[1..] == x' + tail;
      assert (x + tail)[0] == x[0];
      SplitSepFreePrefix(x', tail, sep);
      assert [x[0]] + (x' + Split(tail, sep)[0]) == x + Split(tail, sep)[0];
    } else {
      var t := Split(tail, sep);
      assert x + tail == tail && x + t[0] == t[0];
      assert t == [t[0]] + t[1..];
    }
  }

  /** Splitting a join of separator-free pieces gives the pieces back. */
  lemma {:induction false} SplitJoin(parts: seq<string>, sep: char)
    requires |parts| >= 1 && SepFree(parts, sep)
    ensures Split(Join(parts, sep), sep) == parts
    decreases |parts|
  {
    var p0 := parts[0];
    assert sep !in p0;
    if |parts| == 1 {
      SplitSepFreePrefix(p0, "", sep);
      assert p0 + "" == p0;
    } else {
      var rest := parts[1..];
      assert SepFree(rest, sep) by {
        forall i | 0 <= i < |rest|
          ensures sep !in rest[i]
        {
          assert rest[i] == parts[i + 1];
        }
      }
      SplitJoin(rest, sep);
      var tail := [sep] + Join(rest, sep);
      assert Join(parts, sep) == p0 + tail;
      SplitSepFreePrefix(p0, tail, sep);
      assert tail[0] == sep && tail[1..] == Join(rest, sep);
      assert Split(tail, sep) == [""] + rest;
      assert (Split(tail, sep))[1..] == rest && p0 + Split(tail, sep)[0] == p0;
      assert parts == [p0] + rest;
    }
  }

  /* ---- `Config.get` ---- */

  /** Every segment of `keys` is present, each in a dict. */
  predicate Found(v: Value, keys: seq<string>)
    decreases |keys|
  {
    keys == [] || (v.Dict? && keys[0] in v.entries && Found(v.entries[keys[0]], keys[1..]))
  }

  /** The descent of `get`: the value under `keys`, or `default` as soon as
      a segment is missing or the value reached is not a dict. */
  function Lookup(v: Value, keys: seq<string>, default: Value): (r: Value)
    ensures !Found(v, keys) ==> r == default
    decreases |keys|
  {
    if keys == [] then v
    else if v.Dict? && keys[0] in v.entries then Lookup(v.entries[keys[0]], keys[1..], default)
    else default
  }

  /** Along a path that is present, the default plays no part. */
  lemma {:induction false} LookupIgnoresDefault(v: Value, keys: seq<string>, d1: Value, d2: Value)
    requires Found(v, keys)
    ensures Lookup(v, keys, d1) == Lookup(v, keys, d2)
    decreases |keys|
  {
    if keys != [] {
      LookupIgnoresDefault(v.entries[keys[0]], keys[1..], d1, d2);
    }
  }

  /** `config.get(key, default)` on the loaded document. */
  function Get(settings: Value, key: string, default: Value): Value {
    Lookup(settings, Split(key, '.'), default)
  }

  /** Writes `leaf` under the path `keys`, making dicts along the way and
      replacing any non-dict it passes through: the document in which a
      lookup of `keys` is meant to succeed. */
  function Put(v: Value, keys: seq<string>, leaf: Value): (r: Value)
    ensures keys != [] ==> r.Dict? && keys[0] in r.entries
    decreases |keys|
  {
    if keys == [] then leaf
    else
      var m := if v.Dict? then v.entries else map[];
      Dict(m[keys[0] := Put(Child(v, keys[0]), keys[1..], leaf)])
  }

  /** The value `Put` descends into under `key`: the entry of a dict that
      holds it, a fresh dict otherwise. */
  function Child(v: Value, key: string): Value {
    if v.Dict? && key in v.entries then v.entries[key] else EmptyDict
  }

  /** A path written is found, and `get` returns the stored leaf. */
  lemma {:induction false} LookupPut(v: Value, keys: seq<string>, leaf: Value, default: Value)
    ensures Found(Put(v, keys, leaf), keys)
    ensures Lookup(Put(v, keys, leaf), keys, default) == leaf
    decreases |keys|
  {
    if keys != [] {
      var m := if v.Dict? then v.entries else map[];
      var child := if keys[0] in m then m[keys[0]] else EmptyDict;
      LookupPut(child, keys[1..], leaf, default);
    }
  }

  /** Writing one path leaves the lookup of a path that parts from it
      unchanged. */
  lemma {:induction false} LookupPutOther(v: Value, keys: seq<string>, other: seq<string>, k: nat, leaf: Value, default: Value)
    requires k < |keys| && k < |other|
    requires keys[..k] == other[..k] && keys[k] != other[k]
    ensures Lookup(Put(v, keys, leaf), other, default) == Lookup(v, other, default)
    decreases k
  {
    if k == 0 {
      PutOtherHead(v, keys, other, leaf, default);
    } else {
      assert keys[0] == other[0] by {
        assert keys[0] == keys[..k][0] && other[0] == other[..k][0];
      }
      assert keys[1..][..k - 1] == other[1..][..k - 1] by {
        assert keys[1..][..k - 1] == keys[..k][1..] && other[1..][..k - 1] == other[..k][1..];
      }
      PutSameHead(v, keys, other, leaf, default);
      LookupPutOther(Child(v, keys[0]), keys[1..], other[1..], k - 1, leaf, default);
    }
  }

  /** A path that leaves at the first segment is not touched. */
  lemma PutOtherHead(v: Value, keys: seq<string>, other: seq<string>, leaf: Value, default: Value)
    requires keys != [] && other != [] && keys[0] != other[0]
    ensures Lookup(Put(v, keys, leaf), other, default) == Lookup(v, other, default)
  {
  }

  /** A path sharing the first segment descends into the same child before
      and after the write. */
  lemma PutSameHead(v: Value, keys: seq<string>, other: seq<string>, leaf: Value, default: Value)
    requires keys != [] && |other| > 1 && keys[0] == other[0]
    ensures Lookup(Put(v, keys, leaf), other, default) == Lookup(Put(Child(v, keys[0]), keys[1..], leaf), other[1..], default)
    ensures Lookup(v, other, default) == Lookup(Child(v, keys[0]), other[1..], default)
  {
    if !(v.Dict? && keys[0] in v.entries) {
      assert !Found(EmptyDict, other[1..]);
    }
  }

  /** `get` of a dotted key finds the leaf stored under its segments. */
  lemma GetPut(v: Value, parts: seq<string>, leaf: Value, default: Value)
    requires |parts| >= 1 && SepFree(parts, '.')
    ensures Get(Put(v, parts, leaf), Join(parts, '.'), default) == leaf
  {
    SplitJoin(parts, '.');
    LookupPut(v, parts, leaf, default);
  }

  /** A key whose first segment the document lacks gives the default. */
  lemma GetAbsent(settings: Value, key: string, default: Value)
    requires !settings.Dict? || Split(key, '.')[0] !in settings.entries
    ensures Get(settings, key, default) == default
  {
  }

  /* ---- The settings ---- */

  datatype ConfigError =
    | FileNotFound
    | NotAMapping(key: string)
    | NotAPath(key: string)
    | BadYearsRange
    | WrongType(key: string)

  /** `base / v` for a relative path `v`; an absolute `v` replaces the
      base. */
  function JoinPath(base: string, v: string): string {
    if |v| > 0 && v[0] == '/' then v else base + "/" + v
  }

  /** The dotted keys the properties read (`data.paths`, and so on below),
      written as the join of their segments. */
  const DataPathsKey: string := Join(["data", "paths"], '.')

  /** `data_paths`: every entry of `data.paths` resolved against the
      project directory; an entry that is not a string, or a `data.paths`
      that is not a mapping, raises. */
  function DataPaths(settings: Value, base: string): (res: Result<map<string, string>, ConfigError>)
    ensures var paths := Get(settings, DataPathsKey, EmptyDict);
      && (res.Success? <==> paths.Dict? && forall k :: k in paths.entries ==> paths.entries[k].Str?)
      && (res.Success? ==>
            && res.value.Keys == paths.entries.Keys
            && forall k :: k in res.value ==> res.value[k] == JoinPath(base, paths.entries[k].s))
  {
    var paths := Get(settings, DataPathsKey, EmptyDict);
    if !paths.Dict? then Failure(NotAMapping(DataPathsKey))
    else if exists k :: k in paths.entries && !paths.entries[k].Str? then Failure(NotAPath(DataPathsKey))
    else Success(map k | k in paths.entries :: JoinPath(base, paths.entries[k].s))
  }

  const AtpBaseUrlKey: string := Join(["data", "sources", "atp_github", "base_url"], '.')
  const YearsRangeKey: string := Join(["data", "sources", "atp_github", "years_range"], '.')
  const AllowedTournamentsKey: string := Join(["tournaments", "allowed"], '.')
  const LocationMappingKey: string := Join(["location_mapping"], '.')
  const MinMatchesKey: string := Join(["preprocessing", "min_matches_per_player"], '.')
  const RollingWindowKey: string := Join(["preprocessing", "rolling_window"], '.')
  const ColumnsToDropKey: string := Join(["preprocessing", "columns_to_drop"], '.')
  const ModelKey: string := Join(["model"], '.')

  const DefaultYears: Value := List([Int(2000), Int(2025)])

  /** `list(range(a, b))`. */
  function Range(a: int, b: int): (r: seq<int>)
    ensures |r| == if a < b then b - a else 0
    ensures forall i :: 0 <= i < |r| ==> r[i] == a + i
  {
    seq(if a < b then b - a else 0, i => a + i)
  }

  /** `years_range`: the half-open range between the first two entries of
      the configured pair; anything else than a list starting with two
      integers raises. */
  function YearsRange(settings: Value): (res: Result<seq<int>, ConfigError>)
    ensures var years := Get(settings, YearsRangeKey, DefaultYears);
      && (res.Success? <==> years.List? && |years.items| >= 2 && years.items[0].Int? && years.items[1].Int?)
      && (res.Success? ==>
            var y0 := years.items[0].i;
            var y1 := years.items[1].i;
            && |res.value| == (if y0 < y1 then y1 - y0 else 0)
            && forall i :: 0 <= i < |res.value| ==> y0 <= res.value[i] < y1 && res.value[i] == y0 + i)
  {
    var years := Get(settings, YearsRangeKey, DefaultYears);
    if years.List? && |years.items| >= 2 && years.items[0].Int? && years.items[1].Int? then
      Success(Range(years.items[0].i, years.items[1].i))
    else Failure(BadYearsRange)
  }

  function AtpBaseUrl(settings: Value): Value {
    Get(settings, AtpBaseUrlKey, Str(""))
  }

  function AllowedTournaments(settings: Value): Value {
    Get(settings, AllowedTournamentsKey, List([]))
  }

  function LocationMapping(settings: Value): Value {
    Get(settings, LocationMappingKey, EmptyDict)
  }

  function MinMatchesPerPlayer(settings: Value): Value {
    Get(settings, MinMatchesKey, Int(10))
  }

  function RollingWindow(settings: Value): Value {
    Get(settings, RollingWindowKey, Int(5))
  }

  function ColumnsToDrop(settings: Value): Value {
    Get(settings, ColumnsToDropKey, List([]))
  }

  function ModelConfig(settings: Value): Value {
    Get(settings, ModelKey, EmptyDict)
  }

  /* The segments of each setting's key. */

  lemma YearsRangeKeySegments()
    ensures Split(YearsRangeKey, '.') == ["data", "sources", "atp_github", "years_range"]
  {
    KeySegments(YearsRangeKey, ["data", "sources", "atp_github", "years_range"]);
  }

  lemma AtpBaseUrlKeySegments()
    ensures Split(AtpBaseUrlKey, '.') == ["data", "sources", "atp_github", "base_url"]
  {
    KeySegments(AtpBaseUrlKey, ["data", "sources", "atp_github", "base_url"]);
  }

  lemma DataPathsKeySegments()
    ensures Split(DataPathsKey, '.') == ["data", "paths"]
  {
    KeySegments(DataPathsKey, ["data", "paths"]);
  }

  lemma MinMatchesKeySegments()
    ensures Split(MinMatchesKey, '.') == ["preprocessing", "min_matches_per_player"]
  {
    KeySegments(MinMatchesKey, ["preprocessing", "min_matches_per_player"]);
  }

  lemma RollingWindowKeySegments()
    ensures Split(RollingWindowKey, '.') == ["preprocessing", "rolling_window"]
  {
    KeySegments(RollingWindowKey, ["preprocessing", "rolling_window"]);
  }

  lemma ColumnsToDropKeySegments()
    ensures Split(ColumnsToDropKey, '.') == ["preprocessing", "columns_to_drop"]
  {
    KeySegments(ColumnsToDropKey, ["preprocessing", "columns_to_drop"]);
  }

  lemma AllowedTournamentsKeySegments()
    ensures Split(AllowedTournamentsKey, '.') == ["tournaments", "allowed"]
  {
    KeySegments(AllowedTournamentsKey, ["tournaments", "allowed"]);
  }

  lemma LocationMappingKeySegments()
    ensures Split(LocationMappingKey, '.') == ["location_mapping"]
  {
    KeySegments(LocationMappingKey, ["location_mapping"]);
  }

  lemma ModelKeySegments()
    ensures Split(ModelKey, '.') == ["model"]
  {
    KeySegments(ModelKey, ["model"]);
  }

  lemma KeySegments(key: string, parts: seq<string>)
    requires |parts| >= 1 && SepFree(parts, '.') && Join(parts, '.') == key
    ensures Split(key, '.') == parts
  {
    SplitJoin(parts, '.');
  }

  /** The document has no section `name` (or is no mapping at all). */
  predicate Lacks(settings: Value, name: string) {
    !settings.Dict? || name !in settings.entries
  }

  /** Without a `data` section the base URL is empty and there are no data
      paths. */
  lemma DefaultDataSettings(settings: Value, base: string)
    requires Lacks(settings, "data")
    ensures AtpBaseUrl(settings) == Str("")
    ensures DataPaths(settings, base) == Success(map[])
  {
    DefaultBaseUrl(settings);
    DefaultDataPaths(settings, base);
  }

  lemma DefaultBaseUrl(settings: Value)
    requires Lacks(settings, "data")
    ensures AtpBaseUrl(settings) == Str("")
  {
    AtpBaseUrlKeySegments();
  }

  lemma DefaultDataPaths(settings: Value, base: string)
    requires Lacks(settings, "data")
    ensures DataPaths(settings, base) == Success(map[])
  {
    DataPathsKeySegments();
    assert Get(settings, DataPathsKey, EmptyDict) == EmptyDict;
  }

  /** Without a `data` section the years run from 2000 to 2024. */
  lemma DefaultYearsRange(settings: Value)
    requires Lacks(settings, "data")
    ensures YearsRange(settings).Success?
    ensures |YearsRange(settings).value| == 25
    ensures YearsRange(settings).value[0] == 2000 && YearsRange(settings).value[24] == 2024
  {
    YearsRangeKeySegments();
    assert Get(settings, YearsRangeKey, DefaultYears) == DefaultYears;
  }

  /** Without a `preprocessing` section: at least 10 matches per player, a
      window of 5, and no column dropped. */
  lemma DefaultPreprocessingSettings(settings: Value)
    requires Lacks(settings, "preprocessing")
    ensures MinMatchesPerPlayer(settings) == Int(10)
    ensures RollingWindow(settings) == Int(5)
    ensures ColumnsToDrop(settings) == List([])
  {
    MinMatchesKeySegments();
    RollingWindowKeySegments();
    ColumnsToDropKeySegments();
  }

  /** Without their sections: no tournament allowed and no location
      mapping. */
  lemma DefaultTournamentSettings(settings: Value)
    requires Lacks(settings, "tournaments") && Lacks(settings, "location_mapping")
    ensures AllowedTournaments(settings) == List([])
    ensures LocationMapping(settings) == EmptyDict
  {
    AllowedTournamentsKeySegments();
    LocationMappingKeySegments();
  }

  /** Without a `model` section the model configuration is empty. */
  lemma DefaultModelConfig(settings: Value)
    requires Lacks(settings, "model")
    ensures ModelConfig(settings) == EmptyDict
  {
    ModelKeySegments();
  }

  /* ---- The singleton ---- */

  /** The instance: the document it loaded (`{}`, the class default, until
      a load succeeds). */
  datatype Instance = Instance(settings: Value)

  /** `Config()`: the first call makes the instance and records it before
      loading the file; a missing file then raises, leaving the recorded
      instance with the empty document. Later calls return the recorded
      instance without reading the file. */
  function NewConfig(instance: Option<Instance>, file: Option<Value>): (res: (Option<Instance>, Result<Instance, ConfigError>))
    ensures instance.Some? ==> res == (instance, Success(instance.value))
    ensures instance.None? ==> res.0.Some?
    ensures instance.None? && file.Some? ==> res.1 == Success(Instance(file.value)) && res.0 == Some(res.1.value)
    ensures instance.None? && file.None? ==> res.1 == Failure(FileNotFound) && res.0 == Some(Instance(EmptyDict))
  {
    if instance.Some? then (instance, Success(instance.value))
    else
      var made := Instance(EmptyDict);
      if file.None? then (Some(made), Failure(FileNotFound))
      else
        var loaded := made.(settings := file.value);
        (Some(loaded), Success(loaded))
  }

  /** Every construction after the first returns the first instance,
      whatever the file holds by then. */
  lemma ConfigIsSingleton(file: Option<Value>, later: Option<Value>)
    requires NewConfig(None, file).1.Success?
    ensures var (recorded, first) := NewConfig(None, file);
      NewConfig(recorded, later) == (recorded, first)
  {
  }

  /** A first construction that fails on a missing file leaves an instance
      behind: the next construction succeeds and every setting reads its
      default. */
  lemma FailedLoadLeavesEmptyInstance(later: Option<Value>)
    ensures NewConfig(None, None).1.Failure?
    ensures var (recorded, _) := NewConfig(None, None);
      var next := NewConfig(recorded, later).1;
      && next == Success(Instance(EmptyDict))
      && MinMatchesPerPlayer(next.value.settings) == Int(10)
      && RollingWindow(next.value.settings) == Int(5)
  {
    DefaultPreprocessingSettings(EmptyDict);
  }
}
