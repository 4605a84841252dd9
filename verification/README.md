# ATP match prediction: a Dafny model of the data pipeline and its readers

This project models the core of the ATP-Prediction system. That system turns raw ATP match logs into a feature table and reads that table to predict matches. The model covers:

- **Preprocessing** (`Preprocessor`, `Mirror`, `Tables`). The steps of `ATPDataPreprocessor` work on a generic table of named cells:
  - the Davis Cup filter, the location column, the tournament filter;
  - the player-column renaming and the column drop;
  - the constant `result` column and the missing-value filter;
  - the mirror augmentation, and the minimum-matches filter on `P1`.
  - `Preprocess` chains these steps in the source's order.
- **Feature engines** (`Matches`, `Elo`, `HeadToHead`, `Surface`, `Rolling`, `FeatureEngineer`). These work on typed match rows (`P1`, `P2`, a day number, a surface, `result`, numeric columns). Each engine is one left-to-right pass threading map state:
  - the Elo ratings (start 1500, K = 32, pre-match values emitted);
  - head-to-head counts keyed by the alphabetically sorted pair;
  - surface win rates;
  - per-`P1` rolling means.
  - `EngineerFeatures` runs them in the source's order and sorts the result by date.
- **Inference** (`Inference`): the choice of the model file, and `predict_proba`. `predict_proba` takes the latest row where the player is P1 and applies the Elo expected-score formula.
- **Dashboard helpers** (`Dashboard`): the match odds, the active-player list, and the counting of the most-active-players table.
- **Configuration** (`Config`, `Setup`): the dotted-path `get` with its default, the settings properties and their defaults, the half-open year range, the data paths, and the singleton construction. `Setup` covers the settings that the preprocessor and the feature engineer read when they are built.

Each sort of the source (`sort_values`) is a stable insertion sort on its key (`Matches.ByDate`, `Matches.ByPlayerDate`): a permutation sorted by the key that keeps the input order among equal keys. pandas' default sort is not stable, so this is one of the orders pandas may produce, and the engines' emitted values are stated for the order these sorts fix.

`10^x` enters as a parameter `pow10` that satisfies `Elo.Pow10Laws`:
- it is positive;
- `pow10(0) == 1`;
- `pow10(-x) * pow10(x) == 1`.

Every probability result is stated for any such function.

Dates are integers (day numbers). The dashboard's calendar year is a function `yearOf` passed in, and so are "now" and the current year.

Two construction behaviours are modelled as written:
- `Config()` records the new instance before loading the file. So after a failed load (missing file), the next `Config()` returns an instance holding the empty class-level document, and every property then gives its default.
- `MatchPredictor()` sets `model_path` back to `None` after `_load_model` has set it. So `get_model_info` always reports that no model is loaded.

## Model

| member | source | states |
|---|---|---|
| Tables.FilterRows | src/data/preprocessor.py:36 | a boolean mask keeps the columns and keeps a row exactly when the mask holds of it, with its multiplicity |
| Tables.FilterRowsIdempotent | src/data/preprocessor.py:73 | applying a row mask a second time changes nothing |
| Tables.SetColumn | src/data/preprocessor.py:56 | writing a column adds it once at the end when new and sets that cell of every row, leaving the other cells |
| Tables.ReplaceAll | src/data/preprocessor.py:227 | `str.replace` with a pattern and a replacement of equal length keeps the length of the name; a name without the pattern is unchanged; a name that starts with its only occurrence gets the replacement in front of the same tail |
| Tables.ReplaceByItself | src/data/preprocessor.py:227 | replacing a pattern by itself gives the name back |
| Preprocessor.CleanDavisCup | src/data/preprocessor.py:23-43 | fails exactly when `tourney_name` is absent; otherwise keeps exactly the rows whose name is not text starting with "Davis Cup" (a missing name is kept), with their multiplicities |
| Preprocessor.AddLocation | src/data/preprocessor.py:45-60 | `Location` is the mapped city when the name is a key of the mapping, the name itself otherwise; no other cell changes |
| Preprocessor.FilterTournaments | src/data/preprocessor.py:62-80 | keeps exactly the rows whose tournament name is in the allowed list |
| Preprocessor.DropColumns | src/data/preprocessor.py:82-98 | the columns left are the table's columns not listed; every row keeps its other cells unchanged |
| Preprocessor.DropColumnsIdempotent | src/data/preprocessor.py:92-95 | dropping the same list twice equals dropping it once |
| Preprocessor.RenameColumns | src/data/preprocessor.py:176-179 | each column keeps its position and its values under its new name; unlisted columns keep their names |
| Preprocessor.RenameRoundTrip | src/data/preprocessor.py:176-179 | renaming with a map that undoes the first on the table's columns gives back the original table |
| Preprocessor.RenamePlayerColumns | src/data/preprocessor.py:122-182 | every column keeps its place under its name in the fixed winner/loser mapping (its own name outside the mapping), and every cell moves with its column |
| Preprocessor.PlayerNamesBecomeP1P2 | src/data/preprocessor.py:137 | the `winner_name` column becomes `P1` and the `loser_name` column `P2`, each holding the names it held |
| Preprocessor.RenamesSpareTourneyName | src/data/preprocessor.py:135-173 | the player renaming neither renames nor produces `tourney_name` |
| Preprocessor.CreateResultColumn | src/data/preprocessor.py:184-199 | every row gets `result = 1`, nothing else changes |
| Preprocessor.HandleMissingValues | src/data/preprocessor.py:272-291 | fails exactly when one of `P1`, `P2`, `result` is not a column, naming the absent ones; otherwise keeps exactly the rows with all three present |
| Preprocessor.MirrorRow | src/data/preprocessor.py:226-235 | the mirror has the row's columns plus `result`, and `result = -1` |
| Preprocessor.Mirrors | src/data/preprocessor.py:215 | one mirror per row, in row order |
| Preprocessor.Augment | src/data/preprocessor.py:201-243 | fails exactly when `tourney_date` is absent; otherwise 2N rows sorted by date that are a permutation of the N originals and their N mirrors, every mirror with `result = -1` |
| Preprocessor.MirrorSwapsPlayers | src/data/preprocessor.py:226-232 | the mirror's `P1` and `P2` are the row's `P2` and `P1` |
| Preprocessor.MirrorSwapsPairs | src/data/preprocessor.py:226-232 | every `P1` column with a partner trades its value with that partner |
| Preprocessor.MirrorKeepsOtherColumns | src/data/preprocessor.py:218-232 | a column that is neither a `P1` nor a `P2` column, nor `result`, keeps its value in the mirror |
| Preprocessor.MirrorTwice | src/data/preprocessor.py:226-235 | mirroring a mirror restores the row except `result`, which stays -1 |
| Preprocessor.AugmentedRowOrigin | src/data/preprocessor.py:238 | every augmented row is an original row or the mirror of one |
| Preprocessor.AugmentKeepsClean | src/data/preprocessor.py:201-243 | augmenting rows from allowed tournaments with `result = 1` gives rows from allowed tournaments, each with `result` 1 or -1 |
| Preprocessor.FilterPlayersByMatchCount | src/data/preprocessor.py:245-270 | fails exactly when `P1` is absent; otherwise keeps a row exactly when its `P1` names a player with at least `min_matches` rows as P1 in the input |
| Preprocessor.FilterKeepsWholePlayers | src/data/preprocessor.py:258-262 | a player the filter keeps keeps all of their rows |
| Preprocessor.FilteredPlayersAreFrequent | src/data/preprocessor.py:258-262 | after the filter every remaining player has at least `min_matches` rows |
| Preprocessor.FilterPlayersIdempotent | src/data/preprocessor.py:258-262 | filtering a second time removes nothing |
| Preprocessor.TournamentStepsKeepAllowed | src/data/preprocessor.py:311-314 | after the Davis Cup filter, the location column and the tournament filter every row is from an allowed tournament that is no Davis Cup tie |
| Preprocessor.RenameKeepsAllowed | src/data/preprocessor.py:315 | the renaming keeps every row's tournament |
| Preprocessor.DropKeepsAllowed | src/data/preprocessor.py:316 | the drop keeps every row's tournament, or removes the column |
| Preprocessor.ResultKeepsAllowed | src/data/preprocessor.py:317 | after the result column every row is still from an allowed tournament and says P1 won |
| Preprocessor.MirrorOfCleanRow | src/data/preprocessor.py:226-235 | a mirror of a clean row is clean, with `result = -1` |
| Preprocessor.Preprocess | src/data/preprocessor.py:293-329 | with no `tourney_name` it fails; on success every row that still holds `tourney_name` is from an allowed tournament that is no Davis Cup tie, names both players, has `result` 1 (or -1 when augmenting), and its player has at least `min_matches` rows; at most N rows (2N when augmenting) |
| Mirror.P1Columns | src/data/preprocessor.py:218 | the `P1` columns are exactly the table's columns starting with `P1`, in table order |
| Mirror.SwapCells | src/data/preprocessor.py:229-232 | one swap exchanges two cells and leaves the rest |
| Mirror.SwapPartnersSwaps | src/data/preprocessor.py:226-232 | with distinct partners every `P1` column trades its value with its partner when the row has one |
| Mirror.SwapsPlayers | src/data/preprocessor.py:226-232 | whatever other `P1` columns the loop visits, `P1` and `P2` end up exchanged |
| Mirror.UntouchedOrUnpaired | src/data/preprocessor.py:226-232 | a column that is no partner, and is a `P1` column only without a partner, keeps its value |
| Mirror.SwapPartnersInvolution | src/data/preprocessor.py:226-232 | running the swap loop twice restores the row |
| Mirror.SwapPartnersUpdate | src/data/preprocessor.py:226-235 | writing a column the loop never names commutes with the loop |
| Mirror.OnlyP1PairsWithP2 | src/data/preprocessor.py:227 | `P1` is the only `P1` column whose partner is `P2` |
| Matches.ByDate | src/features/feature_engineer.py:71 | `sort_values('tourney_date')` is a permutation ordered by date |
| Matches.ByPlayerDate | src/features/feature_engineer.py:190 | `sort_values(['P1', 'tourney_date'])` is a permutation ordered by player name, then date |
| Matches.WithStat | src/features/feature_engineer.py:110-112 | writing a numeric column sets it and leaves the other columns |
| Elo.Expected | src/features/feature_engineer.py:94 | the expected score lies strictly between 0 and 1 and is 0.5 for equal ratings |
| Elo.ExpectedComplement | src/features/feature_engineer.py:94-95 | the two players' expected scores sum to one |
| Elo.EloUpdate | src/features/feature_engineer.py:85-107 | only the two players' ratings change; for two distinct players the update is zero-sum, the winner (P1 iff `result == 1`) strictly gains and the loser strictly loses |
| Elo.RatedPlayers | src/features/feature_engineer.py:74-107 | after a sequence of rows exactly the players met hold a rating |
| Elo.EloPass | src/features/feature_engineer.py:80-107 | the loop emits, for each row, both players' ratings before that row's update, and ends in the ratings of the whole sequence |
| Elo.WithElo | src/features/feature_engineer.py:110-112 | `P1_elo`, `P2_elo` are written and `elo_diff = P1_elo - P2_elo`; the contest and other columns are kept |
| Elo.CreateEloRatings | src/features/feature_engineer.py:53-116 | the output is the input in date order, each row carrying the pre-match ratings of its two players and their difference |
| Elo.ColdStart | src/features/feature_engineer.py:86-87 | a player's first row, on either side, sees the initial rating 1500 |
| Elo.MirroredContestCountsTwice | src/features/feature_engineer.py:80-107 | a contest followed by its mirror moves the real winner up twice and the loser down twice |
| Elo.TwoMatchScenario | src/features/feature_engineer.py:80-107 | A beats B then A beats C: A and B start at 1500, after the first row A is 1516 and B 1484, C is still 1500 |
| HeadToHead.PairKeyOf | src/features/feature_engineer.py:142 | the key is the two names in alphabetical order |
| HeadToHead.PairKeySymmetric | src/features/feature_engineer.py:142 | (A, B) and (B, A) share one entry |
| HeadToHead.H2HRead | src/features/feature_engineer.py:148-163 | the total is the sum of the two win counts and the ratio lies in [0, 1] |
| HeadToHead.H2HUpdate | src/features/feature_engineer.py:165-169 | the winner's counter within the row's pair goes up by one and no other counter changes |
| HeadToHead.WinsAreWonMeetings | src/features/feature_engineer.py:132-169 | a counter equals the number of earlier rows of the pair that player won |
| HeadToHead.TotalIsMeetings | src/features/feature_engineer.py:150 | for two distinct players the pair's total is the number of earlier rows of the pair |
| HeadToHead.MirrorRatiosComplement | src/features/feature_engineer.py:148-156 | a row and its mirror read swapped counts and ratios that sum to one |
| HeadToHead.MirroredMeetingCountsTwice | src/features/feature_engineer.py:165-169 | a contest and its mirror both credit the real winner |
| HeadToHead.FirstMeetingIsNeutral | src/features/feature_engineer.py:145-156 | the first meeting of a pair reads total 0 and ratio 0.5 |
| HeadToHead.H2HPass | src/features/feature_engineer.py:136-169 | the loop emits, for each row, the counts before that row's update |
| HeadToHead.WithH2H | src/features/feature_engineer.py:158-163 | the four columns are written with the record's values; the contest and other columns are kept |
| HeadToHead.CreateHeadToHeadFeatures | src/features/feature_engineer.py:118-177 | the output is the input in date order, each row carrying its pre-match pair record |
| Surface.WinRate | src/features/feature_engineer.py:210-217 | 0.5 without history; in [0, 1] whenever wins never exceed matches |
| Surface.SurfaceUpdate | src/features/feature_engineer.py:222-229 | both players' totals on the surface go up by one, the winner's wins by one, nothing else changes, and wins never exceed totals |
| Surface.SurfaceAfterConsistent | src/features/feature_engineer.py:193-229 | after any rows no player has more wins than matches on a surface |
| Surface.CountersAreAppearances | src/features/feature_engineer.py:193-229 | the counters are exactly the player's earlier appearances, and wins, on the surface |
| Surface.PreMatch | src/features/feature_engineer.py:209-217 | both rates a row reads lie in [0, 1] |
| Surface.SurfacePass | src/features/feature_engineer.py:199-229 | the loop emits, for each row, the rates before that row's update |
| Surface.WithRates | src/features/feature_engineer.py:232-234 | the two rates are written and `surface_wr_diff` is their difference; the contest and other columns are kept |
| Surface.CreateSurfacePerformanceFeatures | src/features/feature_engineer.py:179-238 | the rows in `(P1, tourney_date)` order, each carrying the rates read at its place in that order, in [0, 1] |
| Surface.SurfaceOrderLooksAhead | src/features/feature_engineer.py:190 | a two-row table where a row reads a loss played on a later day |
| Surface.CreateSurfacePerformanceFeaturesChronological | src/features/feature_engineer.py:179-238 | the same pass in date order: output sorted by date with the rates read at each place |
| Surface.ChronologicalPassSeesOnlyThePast | src/features/feature_engineer.py:199-229 | in date order a player's surface total lies between their appearances strictly before the row's day and up to it |
| Rolling.Window | src/features/feature_engineer.py:44 | the window is the last `min(W, k)` values |
| Rolling.HistoryLength | src/features/feature_engineer.py:43 | a player's history has one value per row where they are P1 |
| Rolling.HistoryValuesFromOwnRows | src/features/feature_engineer.py:43 | every value of a player's history comes from one of that player's rows |
| Rolling.OwnValueIsNewest | src/features/feature_engineer.py:42-46 | the row's own value is the newest in its window |
| Rolling.FirstRowIsOwnValue | src/features/feature_engineer.py:44 | a player's first row, or any row with a window of one, averages to its own value (`min_periods=1`) |
| Rolling.MeanBounds | src/features/feature_engineer.py:45 | a mean lies between any bounds of its values |
| Rolling.RollingValueBounds | src/features/feature_engineer.py:42-46 | a rolling value lies between bounds of the player's values so far |
| Rolling.RollingColumn | src/features/feature_engineer.py:42-47 | each row gets `<col>_moy`, the window mean of its P1's values up to and including itself |
| Rolling.PresentPermutation | src/features/feature_engineer.py:40 | whether every row holds a column does not depend on the row order |
| Rolling.RollColumns | src/features/feature_engineer.py:39-47 | every listed column the table holds gets its `_moy` column; contests and earlier columns are kept; when no listed name ends in `_moy`, each row's `<col>_moy` is the rolling value of its P1's history, no other key is added, and every other cell keeps its value |
| Rolling.ColumnUntouched | src/features/feature_engineer.py:39-47 | averaging never changes a listed column's own cells |
| Rolling.RollingValueAgree | src/features/feature_engineer.py:42-46 | a row's rolling value depends only on the P1 names and the column's values, not on other columns |
| Rolling.CalculateRollingStats | src/features/feature_engineer.py:19-51 | fails exactly when the window is below 1 and some listed column is present; otherwise output sorted by (P1, date) with every present column averaged, and, when no listed name ends in `_moy`, each row's averages equal the rolling values of the sorted table and every other cell is kept |
| FeatureEngineer.ContestsKept | src/features/feature_engineer.py:286-289 | a stage that permutes rows and keeps each contest keeps the multiset of contests |
| FeatureEngineer.H2HKeepsEarlier | src/features/feature_engineer.py:286-288 | the head-to-head columns leave every Elo and rolling-average cell of the earlier stages with its value |
| FeatureEngineer.RatesKeepEarlier | src/features/feature_engineer.py:288-289 | the surface columns leave every Elo, head-to-head and rolling-average cell of the earlier stages with its value |
| FeatureEngineer.RollingStage | src/features/feature_engineer.py:286 | the rolling stage keeps the contests, adds the `_moy` columns, and, when no listed name ends in `_moy`, gives each row the rolling values of the (P1, date) order |
| FeatureEngineer.EloStage | src/features/feature_engineer.py:287 | the Elo stage keeps the contests, sorts by date, and gives each row the pre-match ratings of its players in that order |
| FeatureEngineer.H2HStage | src/features/feature_engineer.py:288 | the head-to-head stage keeps the contests and the earlier columns and gives each row its pre-match pair record in date order |
| FeatureEngineer.SurfaceStage | src/features/feature_engineer.py:289 | the surface stage keeps the contests and the earlier columns and gives each row the surface rates read at its place in (P1, date) order |
| FeatureEngineer.RunStages | src/features/feature_engineer.py:286-293 | the stages in order then a date sort: same contests in date order, and the output is the date sort of the surface stage's table, which the head-to-head stage's table feeds, which the Elo stage's feeds, which the rolling stage's feeds, each related to its input as its engine promises |
| FeatureEngineer.LaterStages | src/features/feature_engineer.py:287-293 | the Elo, head-to-head and surface stages on the averaged table, then the date sort: same contests, date order, all feature columns present, each stage's table related to the previous one as its engine promises |
| FeatureEngineer.RolledFromListed | src/features/feature_engineer.py:283 | averaging the listed statistics that are present is averaging the listed ones |
| FeatureEngineer.StatColumnsNoClash | src/features/feature_engineer.py:274-280 | no statistic name ends in `_moy` |
| FeatureEngineer.EngineerFeatures | src/features/feature_engineer.py:261-297 | fails only on a window below 1 with a statistic present; otherwise the same contests in date order, each row with consistent Elo, head-to-head and surface columns and a `_moy` column per statistic present, and the intermediate tables related to each other as each engine promises |
| FeatureEngineer.OneMatchFeatures | src/features/feature_engineer.py:261-297 | a table of one match becomes one row: its statistics averaged to themselves, both ratings 1500, no earlier meeting, no surface history |
| FeatureEngineer.OneMatchValues | src/features/feature_engineer.py:80-116 | that row reads Elo 1500 and 1500 with difference 0, a total of 0 meetings and ratio 0.5, surface rates 0.5, and keeps its contest |
| FeatureEngineer.OneMatchKeepsAverages | src/features/feature_engineer.py:286-289 | the later stages leave that row's rolling averages as they were |
| Inference.FindLatestModel | src/ml/inference.py:24-61 | the greatest `model_*.pkl` name when one exists, else `model.pkl` when present, else an error |
| Inference.FallbackIsNotDated | src/ml/inference.py:42-51 | `model.pkl` is never taken for a dated model |
| Inference.FindLatestModelIgnoresOrder | src/ml/inference.py:42 | the choice depends only on which files the directory holds |
| Inference.NewerModelIsChosen | src/ml/inference.py:42-48 | a dated model newer than every other file is chosen |
| Inference.LatestP1Row | src/ml/inference.py:116-117 | none exactly when the player is never P1; otherwise one of their P1 rows with the latest date |
| Inference.PredictProba | src/ml/inference.py:93-138 | succeeds exactly when both players have a P1 row; not-found for player 1 first, then for player 2; otherwise the expected score of the two latest `P1_elo` values (1500 without the column), strictly between 0 and 1 |
| Inference.PredictProbaSwap | src/ml/inference.py:128 | swapping the players gives the complementary probability |
| Inference.PredictProbaEqualRatings | src/ml/inference.py:128 | equal ratings give 0.5 |
| Inference.NewPredictor | src/ml/inference.py:19-22 | construction fails exactly when no model file is found, holds the chosen model, and leaves `model_path` unset |
| Inference.GetModelInfo | src/ml/inference.py:140-155 | the error message exactly when `model_path` is unset, the path otherwise |
| Inference.FreshPredictorReportsNoModel | src/ml/inference.py:19-22 | a freshly built predictor reports no model although it holds one |
| Inference.GetPredictor | src/ml/inference.py:162-175 | a cached predictor is returned as is; otherwise one is built and cached |
| Inference.GetPredictorIsSingleton | src/ml/inference.py:170-175 | the second call returns the instance of the first |
| Dashboard.CalculateMatchOdds | app_streamlit.py:313-357 | the Elo difference is reported exactly when both players have a P1 row, and 0.5/0.5 low otherwise; the two probabilities sum to one; confidence high iff the absolute Elo difference exceeds 200, medium iff it lies in (100, 200], low otherwise |
| Dashboard.OddsAgreeWithPredictor | app_streamlit.py:326-340 | the odds find both players exactly when the predictor does, and give player 1 the same probability |
| Dashboard.OddsSwap | app_streamlit.py:340-356 | swapping the players swaps the probabilities and keeps confidence and difference |
| Dashboard.ActivePlayers | app_streamlit.py:84-105 | exactly the names on either side of a row dated on or after the cutoff, strictly increasing (sorted, no repeats) |
| Dashboard.ActivePlayersMonotone | app_streamlit.py:97-103 | a longer look-back lists everyone a shorter one lists |
| Dashboard.SelectedYear | app_streamlit.py:137-146 | the current year when it has rows, otherwise the latest year in the data; none only for an empty table |
| Dashboard.LatestYear | app_streamlit.py:144 | the latest year is a year of some row and no row is later |
| Dashboard.YearRows | app_streamlit.py:140-145 | the rows of the selected year, exactly |
| Dashboard.PlaysIffCounted | app_streamlit.py:148-152 | a name is a player of the rows exactly when its match count is positive |
| Dashboard.RankByMatches | app_streamlit.py:152 | every player once, by decreasing count of P1 plus P2 appearances |
| Dashboard.TopPlayers | app_streamlit.py:152-157 | at most `top_n` distinct players by decreasing count, no unlisted player counting more than a listed one, and all players when fewer than `top_n` |
| Dashboard.MostActivePlayers | app_streamlit.py:125-182 | the table as written: the selected year, at most `top_n` distinct players by decreasing matches (every player of the year when fewer), each with matches the P1 plus P2 count, wins its P1 count, and the win rate as a percentage |
| Dashboard.MostActiveOnAugmentedIsHalf | app_streamlit.py:148-164 | on an augmented table, before any row is filtered out, every listed player shows twice their real matches and a 50% win rate |
| Dashboard.MostActivePlayersCorrected | app_streamlit.py:125-182 | the table counted over the original orientation only, wins counted as won rows, at most `top_n` lines and every player of those rows when fewer |
| Dashboard.CorrectedCountsContests | app_streamlit.py:148-164 | on an augmented table the corrected counts are each player's real matches and real wins that year |
| Config.Split | src/utils/config.py:53 | `key.split('.')` gives at least one piece, none holding a dot, that join back to the key |
| Config.SplitJoin | src/utils/config.py:53 | splitting a join of dot-free pieces gives the pieces back |
| Config.Lookup | src/utils/config.py:54-62 | along a path that is not present the default is returned |
| Config.LookupIgnoresDefault | src/utils/config.py:56-62 | along a present path the default plays no part |
| Config.LookupPut | src/utils/config.py:56-62 | a stored leaf is found along its path and returned |
| Config.LookupPutOther | src/utils/config.py:56-62 | storing under one path leaves the lookup of a path that parts from it unchanged |
| Config.GetPut | src/utils/config.py:37-62 | `get` of a dotted key returns the leaf stored under its segments |
| Config.GetAbsent | src/utils/config.py:56-60 | a key whose first segment the document lacks gives the default |
| Config.DataPaths | src/utils/config.py:64-69 | succeeds exactly when `data.paths` is a mapping of strings; every entry is joined to the base directory |
| Config.Range | src/utils/config.py:80 | `range(a, b)` holds `a, a+1, ..., b-1` |
| Config.YearsRange | src/utils/config.py:76-80 | succeeds exactly when the setting is a list whose first two items are integers, and is then the half-open range between them |
| Config.DefaultDataSettings | src/utils/config.py:64-74 | without a `data` section the base URL is empty and there are no data paths |
| Config.DefaultYearsRange | src/utils/config.py:79-80 | without a `data` section the years are 2000 to 2024, 25 of them |
| Config.DefaultPreprocessingSettings | src/utils/config.py:92-105 | without a `preprocessing` section: 10 matches per player, window 5, nothing to drop |
| Config.DefaultTournamentSettings | src/utils/config.py:82-90 | without those sections: no tournament allowed, no location mapping |
| Config.DefaultModelConfig | src/utils/config.py:107-110 | without a `model` section the model configuration is empty |
| Config.NewConfig | src/utils/config.py:19-35 | an existing instance is returned unchanged; otherwise the instance is recorded and loads the file, or fails on a missing file with an empty document recorded |
| Config.ConfigIsSingleton | src/utils/config.py:19-23 | every construction after a successful first returns the first instance |
| Config.FailedLoadLeavesEmptyInstance | src/utils/config.py:16-23 | after a failed first load the next construction succeeds on the empty document, with the default settings |
| Setup.PreprocessorSettings | src/data/preprocessor.py:16-21 | the preprocessor is built exactly when the four settings have the expected types, with their values |
| Setup.WindowSetting | src/features/feature_engineer.py:16-17 | the rolling window is read when it is an integer |
| Setup.DefaultPreprocessor | src/data/preprocessor.py:16-21 | without those sections: empty mapping, no tournament, nothing to drop, 10 matches per player |
| Setup.DefaultWindow | src/features/feature_engineer.py:16-17 | without a `preprocessing` section the window is 5 |

## Left out

- File and network I/O: the collectors, reading `config.yaml` and the gold CSV, and the `joblib` model load. The configuration file arrives as a parsed `Config.Value` (or `None` when missing); the model directory is a list of file names; the feature table is a list of rows.
- YAML parsing, and the `get_config` that `inference.py` imports (`src/utils/config.py` does not define it).
- Training, `run_pipeline.py`, `orchestrate.py`, the logger, and every log line.
- The climate-data merge between preprocessing and feature engineering. There is no bridge from the generic table of `Preprocessor` to the typed rows of the engines.
- Streamlit and plotly rendering, the CSS, the cache decorators (other than the predictor cache), and the `Config.__repr__` string.
- `convert_date_column`, date parsing, and `create_time_features` (`year`, `month`, `day_of_year`): dates are integers already, and calendar years come from a function passed in.
- Floating point: ratings, rates and means are exact reals, `10^x` is abstract, and NaN semantics (missing statistics in rolling means, NaN surfaces) are outside the model.
- The `'Unknown'` surface default for a table without a `surface` column: every typed row carries a surface.
- pandas tie order among equal sort keys: each sort is the stable one, which is one of the orders pandas may produce; the values the engines emit are stated for that order only.
- The time of day in the active-player cutoff: "now" is a day number.
- The `ELO Moyen` and `Dernier Match` columns of the most-active-players table, and the rounding of the win rate.
- The model file's size and type in `get_model_info`.
- Path normalisation in `Config.DataPaths`: an absolute entry replaces the base and a relative one is appended after a `/`.
- Python's `bool` as `int` in the settings: a boolean value is not an integer here.
- Setup.PreprocessorSettings: fails on settings of the wrong type, where Python would build the preprocessor and fail later on first use.
- Preprocessor.RenamePlayerColumns: requires that the renaming sends no two columns to one name. pandas would produce duplicate column names, which the table model cannot hold.
- Preprocessor.Preprocess: requires the same of the columns it renames, and states only the invariants of its successful result and the `tourney_name` failure. It does not state which later failures (no `tourney_date` when augmenting, no `P1` or `P2` after renaming) occur. The tournament clause speaks only of rows that still hold `tourney_name`: when the drop list names that column, the rows were still filtered by tournament, but the result no longer shows it.
- Preprocessor.CleanDavisCup: the `.str` accessor failure on a `tourney_name` column that is not string-typed (all numeric, or all missing as floats) is not modelled; the model succeeds and keeps every row whose name is not text starting with "Davis Cup".
- Rolling.RollColumns and Rolling.CalculateRollingStats: the `_moy` values and the kept cells are stated only when no listed column name itself ends in `_moy`. Otherwise a later column's average could overwrite an earlier one, and no value is promised; the source's own statistic list has no such name (`FeatureEngineer.StatColumnsNoClash`).
- Setup.WindowSetting: fails at construction on a non-integer `rolling_window`, where the source stores any value and pandas rejects it only inside `rolling`, and only when a listed column is present.
- Elo.EloUpdate: the zero-sum and winner-gains properties are stated for two distinct players. A row naming the same player on both sides is modelled (the P2 update overwrites the P1 one) but has no property of its own.

## Findings

| source | as written | input that shows it | evidently intended | confidence | as-written member | corrected member |
|---|---|---|---|---|---|---|
| src/features/feature_engineer.py:190 | the surface pass visits rows in `(P1, tourney_date)` order, so a row's pre-match surface record can hold matches played on later days by its P2 | Z beats B on day 1 and A beats B on day 2, both on hard: the day-2 row comes first, and the day-1 row reads B's surface rate as 0 although B has no earlier match | the pass runs in date order like the Elo and head-to-head passes, so a rate never counts a match of a later day (a match earlier in the same day may still count, as in those passes) | not executed | Surface.CreateSurfacePerformanceFeatures, Surface.SurfaceOrderLooksAhead | Surface.CreateSurfacePerformanceFeaturesChronological, Surface.ChronologicalPassSeesOnlyThePast |
| app_streamlit.py:148-164 | the most-active table counts P1 plus P2 appearances and takes every P1 row as a win, on the augmented table where every contest appears once from each side | the augmented table before the player filter of src/data/preprocessor.py:325: a player with one real match, which they won, shows 2 matches, 1 win and a 50% win rate, and every listed player shows exactly 50%; after that filter, which drops rows by their P1 alone, a player who passes it shows a rate between 50% and 100%, and one who does not shows only P2 rows and 0% | count each contest once (the original orientation, `result == 1`) and count the rows the player won | not executed | Dashboard.MostActivePlayers, Dashboard.MostActiveOnAugmentedIsHalf | Dashboard.MostActivePlayersCorrected, Dashboard.CorrectedCountsContests |
