/** The settings the preprocessor and the feature engineer read from the
    configuration when they are built, converted to the types the model
    of each works with. */
module Setup {
  import opened Wrappers
  import opened Config
  import Preprocessor
  import Rolling

  /** A list of strings, read as one. */
  function Strings(v: Value): (r: Option<seq<string>>)
    ensures r.Some? <==> v.List? && forall i :: 0 <= i < |v.items| ==> v.items[i].Str?
    ensures r.Some? ==> |r.value| == |v.items| && forall i :: 0 <= i < |r.value| ==> Str(r.value[i]) == v.items[i]
  {
    if v.List? && forall i :: 0 <= i < |v.items| ==> v.items[i].Str? then
      Some(seq(|v.items|, i requires 0 <= i < |v.items| => v.items[i].s))
    else None
  }

  /** A mapping from strings to strings, read as one. */
  function StringMap(v: Value): (r: Option<map<string, string>>)
    ensures r.Some? <==> v.Dict? && forall k :: k in v.entries ==> v.entries[k].Str?
    ensures r.Some? ==> r.value.Keys == v.entries.Keys && forall k :: k in r.value ==> Str(r.value[k]) == v.entries[k]
  {
    if v.Dict? && forall k :: k in v.entries ==> v.entries[k].Str? then
      Some(map k | k in v.entries :: v.entries[k].s)
    else None
  }

  /** `ATPDataPreprocessor()`: the location mapping, the allowed
      tournaments, the columns to drop and the minimum match count. */
  function PreprocessorSettings(settings: Value): (res: Result<Preprocessor.PreprocessConfig, ConfigError>)
    ensures res.Success? <==>
      && StringMap(LocationMapping(settings)).Some?
      && Strings(AllowedTournaments(settings)).Some?
      && Strings(ColumnsToDrop(settings)).Some?
      && MinMatchesPerPlayer(settings).Int?
    ensures res.Success? ==>
      && res.value.locationMapping == StringMap(LocationMapping(settings)).value
      && res.value.allowedTournaments == Strings(AllowedTournaments(settings)).value
      && res.value.columnsToDrop == Strings(ColumnsToDrop(settings)).value
      && Int(res.value.minMatches) == MinMatchesPerPlayer(settings)
  {
    var mapping := StringMap(LocationMapping(settings));
    var allowed := Strings(AllowedTournaments(settings));
    var dropped := Strings(ColumnsToDrop(settings));
    var minMatches := MinMatchesPerPlayer(settings);
    if mapping.None? then Failure(WrongType(LocationMappingKey))
    else if allowed.None? then Failure(WrongType(AllowedTournamentsKey))
    else if dropped.None? then Failure(WrongType(ColumnsToDropKey))
    else if !minMatches.Int? then Failure(WrongType(MinMatchesKey))
    else
      Success(Preprocessor.PreprocessConfig(mapping.value, allowed.value, dropped.value, minMatches.i))
  }

  /** `FeatureEngineer()`: the rolling window. */
  function WindowSetting(settings: Value): (res: Result<int, ConfigError>)
    ensures res.Success? <==> RollingWindow(settings).Int?
    ensures res.Success? ==> Int(res.value) == RollingWindow(settings)
  {
    var w := RollingWindow(settings);
    if w.Int? then Success(w.i) else Failure(WrongType(RollingWindowKey))
  }

  /** A document without those sections builds a preprocessor that renames
      no location, allows no tournament, drops no column and keeps players
      with at least 10 matches. */
  lemma DefaultPreprocessor(settings: Value)
    requires Lacks(settings, "tournaments") && Lacks(settings, "location_mapping")
    requires Lacks(settings, "preprocessing")
    ensures PreprocessorSettings(settings) == Success(Preprocessor.PreprocessConfig(map[], [], [], 10))
  {
    DefaultPreprocessingSettings(settings);
    DefaultTournamentSettings(settings);
    var res := PreprocessorSettings(settings);
    assert StringMap(EmptyDict) == Some(map[]);
    assert Strings(List([])) == Some([]);
    assert res.Success?;
  }

  /** A feature engineer built without a `preprocessing` section uses the
      default window. */
  lemma DefaultWindow(settings: Value)
    requires Lacks(settings, "preprocessing")
    ensures WindowSetting(settings) == Success(Rolling.DefaultWindow)
  {
    DefaultPreprocessingSettings(settings);
  }
}
