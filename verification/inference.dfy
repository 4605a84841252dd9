/** `MatchPredictor`: choosing the model file to load, and the Elo-based
    win probability `predict_proba` reads off the feature table.

    The model directory is given as the list of its file names and the
    feature table as its rows; loading the model file itself is not
    modelled, so a loaded model is represented by its file name. */
module Inference {
  import opened Wrappers
  import opened Ordering
  import opened Seqs
  import opened Tables
  import opened Matches
  import Elo

  const DatedPrefix: string := "model_"
  const ModelSuffix: string := ".pkl"
  const FallbackModel: string := "model.pkl"

  predicate EndsWith(s: string, suffix: string) {
    |suffix| <= |s| && s[|s| - |suffix|..] == suffix
  }

  /** A name the pattern `model_*.pkl` matches: the prefix, anything, then
      the suffix, the two not overlapping. */
  predicate IsDatedModel(name: string) {
    && |DatedPrefix| + |ModelSuffix| <= |name|
    && StartsWith(name, DatedPrefix)
    && EndsWith(name, ModelSuffix)
  }

  datatype LoadError = ModelNotFound

  /** `_find_latest_model`. */
  function FindLatestModel(files: seq<string>): (res: Result<string, LoadError>)
    ensures (exists f :: f in files && IsDatedModel(f)) ==>
      && res.Success?
      && res.value in files && IsDatedModel(res.value)
      && forall f :: f in files && IsDatedModel(f) ==> StrLe(f, res.value)
    ensures (forall f :: f in files ==> !IsDatedModel(f)) ==>
      res == if FallbackModel in files then Success(FallbackModel) else Failure(ModelNotFound)
  {
    var dated := Filter(files, IsDatedModel);
    if dated != [] then Success(MaxString(dated))
    else if FallbackModel in files then Success(FallbackModel)
    else Failure(ModelNotFound)
  }

  /** The fallback is never a dated model. */
  lemma FallbackIsNotDated()
    ensures !IsDatedModel(FallbackModel)
  {
    assert FallbackModel[..|DatedPrefix|][5] == '.' != DatedPrefix[5];
  }

  /** The choice depends only on which files the directory holds, not on
      the order the listing gives them in. */
  lemma FindLatestModelIgnoresOrder(a: seq<string>, b: seq<string>)
    requires forall f :: f in a <==> f in b
    ensures FindLatestModel(a) == FindLatestModel(b)
  {
    if exists f :: f in a && IsDatedModel(f) {
      var x := FindLatestModel(a).value;
      var y := FindLatestModel(b).value;
      StrLeAntisymmetric(x, y);
    }
  }

  /** Adding a dated model newer than every other file makes it the choice. */
  lemma NewerModelIsChosen(files: seq<string>, newer: string)
    requires IsDatedModel(newer)
    requires forall f :: f in files ==> StrLt(f, newer)
    ensures FindLatestModel(files + [newer]) == Success(newer)
  {
    var chosen := FindLatestModel(files + [newer]).value;
    assert newer in files + [newer];
    if chosen != newer {
      assert chosen in files;
      StrLeAntisymmetric(chosen, newer);
    }
  }

  /** The latest-dated row where `p` is P1 (`sort_values(ascending=False)
      .head(1)`); among rows of that date the first is taken, one of the
      orders pandas' unstable sort may produce. */
  function LatestP1Row(rows: seq<Row>, p: string): (r: Option<Row>)
    ensures r.None? <==> forall i :: 0 <= i < |rows| ==> rows[i].p1 != p
    ensures r.Some? ==> r.value in rows && r.value.p1 == p
    ensures r.Some? ==> forall i :: 0 <= i < |rows| && rows[i].p1 == p ==> rows[i].date <= r.value.date
    decreases |rows|
  {
    if rows == [] then None
    else
      var rest := LatestP1Row(rows[1..], p);
      assert forall i :: 1 <= i < |rows| ==> rows[i] == rows[1..][i - 1];
      if rows[0].p1 != p then rest
      else if rest.Some? && rest.value.date > rows[0].date then rest
      else Some(rows[0])
  }

  /** The rating `predict_proba` reads: the row's `P1_elo`, or 1500 when
      the table has no such column. */
  function RatingOf(r: Row): real {
    if Elo.P1EloColumn in r.stats then r.stats[Elo.P1EloColumn] else Elo.InitialRating
  }

  datatype PredictError = PlayerNotFound(name: string)

  /** `predict_proba(player1, player2)`. */
  function PredictProba(pow10: real -> real, rows: seq<Row>, player1: string, player2: string): (res: Result<real, PredictError>)
    requires Elo.Pow10Laws(pow10)
    ensures (forall i :: 0 <= i < |rows| ==> rows[i].p1 != player1) ==> res == Failure(PlayerNotFound(player1))
    ensures ((exists i :: 0 <= i < |rows| && rows[i].p1 == player1)
             && (forall i :: 0 <= i < |rows| ==> rows[i].p1 != player2)) ==> res == Failure(PlayerNotFound(player2))
    ensures res.Success? ==> 0.0 < res.value < 1.0
    ensures res.Success? <==> LatestP1Row(rows, player1).Some? && LatestP1Row(rows, player2).Some?
    ensures res.Success? ==>
      && res.value == Elo.Expected(pow10, RatingOf(LatestP1Row(rows, player1).value), RatingOf(LatestP1Row(rows, player2).value))
  {
    var a := LatestP1Row(rows, player1);
    var b := LatestP1Row(rows, player2);
    if a.None? then Failure(PlayerNotFound(player1))
    else if b.None? then Failure(PlayerNotFound(player2))
    else Success(Elo.Expected(pow10, RatingOf(a.value), RatingOf(b.value)))
  }

  /** Swapping the players gives the complementary probability. */
  lemma PredictProbaSwap(pow10: real -> real, rows: seq<Row>, a: string, b: string)
    requires Elo.Pow10Laws(pow10)
    requires PredictProba(pow10, rows, a, b).Success?
    ensures PredictProba(pow10, rows, b, a).Success?
    ensures PredictProba(pow10, rows, a, b).value + PredictProba(pow10, rows, b, a).value == 1.0
  {
    var ra := RatingOf(LatestP1Row(rows, a).value);
    var rb := RatingOf(LatestP1Row(rows, b).value);
    Elo.ExpectedComplement(pow10, ra, rb);
  }

  /** A player against themself, or two players rated alike, is an even
      match. */
  lemma PredictProbaEqualRatings(pow10: real -> real, rows: seq<Row>, a: string, b: string)
    requires Elo.Pow10Laws(pow10)
    requires PredictProba(pow10, rows, a, b).Success?
    requires RatingOf(LatestP1Row(rows, a).value) == RatingOf(LatestP1Row(rows, b).value)
    ensures PredictProba(pow10, rows, a, b).value == 0.5
  {
  }

  /** A predictor: the loaded model, and the path `get_model_info`
      reports on. */
  datatype Predictor = Predictor(model: string, modelPath: Option<string>)

  /** `MatchPredictor()`: `_load_model` finds and loads the model and sets
      `model_path`, and the constructor then sets `model_path` back to
      `None`. */
  function NewPredictor(files: seq<string>): (res: Result<Predictor, LoadError>)
    ensures res.Failure? <==> FindLatestModel(files).Failure?
    ensures res.Success? ==> res.value.model == FindLatestModel(files).value
    ensures res.Success? ==> res.value.modelPath.None?
  {
    var path :- FindLatestModel(files);
    var loaded := Predictor(path, Some(path));
    Success(loaded.(modelPath := None))
  }

  const NoModelMessage: string := "Aucun modèle chargé"

  datatype ModelInfo =
    | NoModel(error: string)
    | Loaded(modelName: string, modelPath: string)

  /** `get_model_info` (file size and model type are left out). */
  function GetModelInfo(p: Predictor): (info: ModelInfo)
    ensures info.NoModel? <==> p.modelPath.None?
    ensures info.NoModel? ==> info.error == NoModelMessage
    ensures info.Loaded? ==> info.modelPath == p.modelPath.value
  {
    match p.modelPath
    case None => NoModel(NoModelMessage)
    case Some(path) => Loaded(path, path)
  }

  /** A freshly built predictor always reports that no model is loaded,
      although it holds one. */
  lemma FreshPredictorReportsNoModel(files: seq<string>)
    requires NewPredictor(files).Success?
    ensures GetModelInfo(NewPredictor(files).value) == NoModel(NoModelMessage)
    ensures NewPredictor(files).value.model == FindLatestModel(files).value
  {
  }

  /** `get_predictor`: builds the predictor on the first call and returns the
      cached one afterwards. */
  function GetPredictor(cache: Option<Predictor>, files: seq<string>): (res: Result<(Option<Predictor>, Predictor), LoadError>)
    ensures cache.Some? ==> res == Success((cache, cache.value))
    ensures cache.None? ==> (res.Success? <==> NewPredictor(files).Success?)
    ensures res.Success? ==> res.value.0 == Some(res.value.1)
  {
    match cache
    case Some(p) => Success((cache, p))
    case None =>
      var p :- NewPredictor(files);
      Success((Some(p), p))
  }

  /** The second call returns the instance of the first. */
  lemma GetPredictorIsSingleton(files: seq<string>, later: seq<string>)
    requires GetPredictor(None, files).Success?
    ensures var (cache, first) := GetPredictor(None, files).value;
      GetPredictor(cache, later) == Success((cache, first))
  {
  }
}
