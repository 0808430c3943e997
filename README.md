# CreditScore: cohort comparison and column typing, in Dafny

This project models the two pieces of CreditScore that hold decision logic:

- the **client dashboard** (`credit_score_frontend/dashboard.py`). It builds a
  `filter_dict` criterion from the selected client's row and eight checkboxes.
  It selects the "similar clients" cohort. It rates the client's credit score
  in one of five bands. It picks the "best" and "worst" groups of the similar
  cohort and of all clients.
- the backend's **`convert_types`** (`credit_score_backend/server/controllers/config.py`).
  It walks the columns of a loaded frame and narrows each column's dtype by an
  ordered table of rules, in place.

The "Credit Score" column is the model's default probability in percent.
`compute_credit_score` divides it by 100. So "best" is the low end of that
column and "worst" the high end.

Modules:

- `Table`: cell values (`Null | Num | Str`), the eight filter attributes, the client row, and the criterion type.
- `Masks`: boolean-mask selection `frame[mask]` (`Where`) and its laws.
- `Criteria`: the checkboxes, the criterion builder, the cohort filter, and the client lookup.
- `ScoreBand`: the band classifier.
- `Bucketing`: truncation, min and max, the best and worst groups, and the frames the dashboard copies and extends.
- `Comparison`: the flow from the selected client to its groups.
- `ConvertTypes`: the dtype decision table and the in-place loop over the columns.

Behaviour kept as the code has it:

- **The "Income Type" checkbox does nothing.** NAME_INCOME_TYPE is gated by the "Income bracket" checkbox (dashboard.py:104). `Criteria.Gate` keeps that wiring, and `Criteria.IncomeTypeBoxIgnored` proves that toggling "Income Type" never changes the criterion.
- **The two "best" rules differ by one.** The similar-clients view keeps rows with score `<= int(min) + 25 + 1` (line 251). The all-clients view keeps rows with score `<= int(min) + 25` (line 410). `Bucketing.View` selects the rule, and `Bucketing.PlusOneAsymmetry` shows an input where the two disagree.
- **The wildcard is the string `"*"`.** `filter_dict` holds the literal string `"*"` as its wildcard (`Table.Star`). A reference value that is itself `"*"` therefore also acts as a wildcard. `Criteria.Entry` states this.
- **Every score outside the four named ranges is POOR.** This includes scores above 850 (`ScoreBand.BandOf`). The gauge legend beside it (dashboard.py:169-173) colours POOR as 300 to 579 on a 300 to 850 axis. There is no `else` branch: the initial `cs_text = "POOR"` (dashboard.py:192) stays for every score the four ranges miss, scores above 850 included, and the model follows the code.

`get_filtered_client_data` lives in `helper_functions`, which is not part of
this model. `Table.Matches` gives it an ASSUMED contract: exact equality on
every attribute whose entry is not `"*"`. Every statement about the
similar-clients cohort depends on that assumption.

## Model

| member | source | states |
|---|---|---|
| `Masks.Where` | credit_score_frontend/dashboard.py:251 | a mask selection keeps exactly the rows satisfying the condition and is never longer than the frame |
| `Masks.WhereMultiplicity` | credit_score_frontend/dashboard.py:251 | a mask selection keeps each satisfying row as many times as the frame holds it, and no other row |
| `Masks.WhereIsSubsequence` | credit_score_frontend/dashboard.py:256 | a mask selection only drops rows, never reorders them |
| `Masks.WhereConcat` | credit_score_frontend/dashboard.py:251 | selection acts row by row: it distributes over concatenation of frames |
| `Masks.WhereAll` | credit_score_frontend/dashboard.py:256 | a condition every row meets selects the whole frame |
| `Masks.WhereIdempotent` | credit_score_frontend/dashboard.py:142 | selecting again with the same condition changes nothing |
| `Masks.WhereMonotone` | credit_score_frontend/dashboard.py:251 | a weaker condition selects a superset, in the same order |
| `Masks.WhereHead` | credit_score_frontend/dashboard.py:89 | the first selected row (`.iloc[0]`) is the earliest frame row meeting the condition |
| `Criteria.Entry` | credit_score_frontend/dashboard.py:108-139 | an entry is `"*"` exactly when its box is off or the value is `''`, null or `"*"`; otherwise it is the reference value, and never `''` or null |
| `Criteria.BuildCriterion` | credit_score_frontend/dashboard.py:92-139 | the criterion has all eight attributes; each is `"*"` exactly when its gating box is off or the reference value is `''`, null or `"*"`, and otherwise equals the reference value |
| `Criteria.IncomeTypeBoxIgnored` | credit_score_frontend/dashboard.py:81-104 | toggling only the "Income Type" box never changes the criterion |
| `Criteria.IncomeBoxGatesIncomeType` | credit_score_frontend/dashboard.py:94-104 | with "Income bracket" off, both AMT_INCOME_TOTAL and NAME_INCOME_TYPE are wildcards |
| `Criteria.ReferenceMatches` | credit_score_frontend/dashboard.py:89-139 | the selected client satisfies its own criterion |
| `Criteria.AllOffMatchesEveryone` | credit_score_frontend/dashboard.py:92-139 | with every box off, every entry is `"*"` and every client matches |
| `Criteria.FilterClients` | credit_score_frontend/dashboard.py:142 | (assumed filter) the cohort is an order-preserving subsequence of the store holding exactly the matching clients, each as many times as the store holds it |
| `Criteria.AllWildcardSelectsStore` | credit_score_frontend/dashboard.py:142 | with every box off the cohort is the whole store |
| `Criteria.FilterIdempotent` | credit_score_frontend/dashboard.py:142 | filtering the cohort again with the same criterion returns the same cohort |
| `Criteria.Lookup` | credit_score_frontend/dashboard.py:89 | fails exactly when no row has the id; otherwise returns the first row with that id |
| `Criteria.SimilarClients` | credit_score_frontend/dashboard.py:89-142 | fails exactly when the lookup fails; otherwise the cohort is the filtered store and contains the selected client |
| `Criteria.SimilarCohortNonEmpty` | credit_score_frontend/dashboard.py:89-142 | for a client that exists the similar cohort is non-empty |
| `ScoreBand.BandOf` | credit_score_frontend/dashboard.py:192-200 | FAIR iff 580..669, GOOD iff 670..739, VERY GOOD iff 740..799, EXCEPTIONAL iff 800..850, POOR iff below 580 or above 850 |
| `ScoreBand.ProfileText` | credit_score_frontend/dashboard.py:192-200 | the text left in `cs_text` is the label of the score's band |
| `ScoreBand.LabelInjective` | credit_score_frontend/dashboard.py:193-200 | the five labels are distinct, so the text determines the band |
| `ScoreBand.BandMonotoneOnScale` | credit_score_frontend/dashboard.py:192-200 | on 300..850 a higher score never gets a worse band |
| `ScoreBand.AboveScaleIsPoor` | credit_score_frontend/dashboard.py:192-200 | 850 is EXCEPTIONAL but 851 is POOR |
| `Bucketing.Trunc` | credit_score_frontend/dashboard.py:246-247 | `int()` truncates toward zero: within one below a non-negative value, within one above a negative one |
| `Bucketing.MinScore` | credit_score_frontend/dashboard.py:246 | the minimum is no larger than any row's score and is some row's score |
| `Bucketing.MaxScore` | credit_score_frontend/dashboard.py:247 | the maximum is no smaller than any row's score and is some row's score |
| `Bucketing.Bucket` | credit_score_frontend/dashboard.py:246-258 | fails exactly on an empty cohort; similar best is the rows with score <= int(min)+26, global best the rows <= int(min)+25, worst the rows >= int(max)-25, each row kept as many times as the cohort holds it; both are subsequences of the cohort |
| `Bucketing.MinimumIsBest` | credit_score_frontend/dashboard.py:246-251 | a row holding the minimum is in best, in both views |
| `Bucketing.MaximumIsWorst` | credit_score_frontend/dashboard.py:247-256 | a row holding the maximum is in worst, in both views |
| `Bucketing.SingletonGroups` | credit_score_frontend/dashboard.py:246-256 | a one-row cohort gives best = worst = the cohort |
| `Bucketing.BestIsDownwardClosed` | credit_score_frontend/dashboard.py:249-251 | any cohort row scoring no more than a best row is best |
| `Bucketing.WorstIsUpwardClosed` | credit_score_frontend/dashboard.py:255-256 | any cohort row scoring no less than a worst row is worst |
| `Bucketing.GroupsNearExtremes` | credit_score_frontend/dashboard.py:246-256 | for non-negative scores, best rows are within 26 (similar) or 25 (global) of the minimum and worst rows within 26 of the maximum |
| `Bucketing.GlobalBestWithinSimilarBest` | credit_score_frontend/dashboard.py:404-414 | the global best group is a subsequence of the similar rule's best group on the same rows; worst is the same in both views |
| `Bucketing.PlusOneAsymmetry` | credit_score_frontend/dashboard.py:251 | with scores 0.5 and 26.0, the 26.0 row is best under the similar rule and not under the global rule |
| `Bucketing.DaysToYears` | credit_score_frontend/dashboard.py:252 | the result is a number exactly when the day count is a number, and missing otherwise (text included); a number result times -365 gives back the day count, and a non-positive day count gives non-negative years |
| `Bucketing.AgeColumn` | credit_score_frontend/dashboard.py:252 | one AGE cell per row; it is a number exactly when that row's DAYS_BIRTH is a number and missing otherwise, a number times -365 is DAYS_BIRTH, and it is non-negative for a non-positive DAYS_BIRTH |
| `Bucketing.TenureColumn` | credit_score_frontend/dashboard.py:253 | one YEARS AT CURRENT JOB cell per row; it is a number exactly when that row's DAYS_EMPLOYED is a number and missing otherwise, a number times -365 is DAYS_EMPLOYED, and it is non-negative for a non-positive DAYS_EMPLOYED |
| `Bucketing.Frame.AddYearsColumns` | credit_score_frontend/dashboard.py:252-253 | rows unchanged; exactly the AGE and YEARS AT CURRENT JOB columns are set |
| `Bucketing.GroupFramesOf` | credit_score_frontend/dashboard.py:246-258 | fails exactly on an empty cohort; otherwise returns two fresh, distinct frames (the `.copy()`) holding the best and worst rows with the year columns added; the cohort frame's rows and columns are as before |
| `Comparison.SimilarGroupsExist` | credit_score_frontend/dashboard.py:89-256 | for an existing client the similar cohort exists and its groups never hit the empty-cohort failure |
| `Comparison.SelectedClientPlacement` | credit_score_frontend/dashboard.py:89-256 | a selected client with the cohort's minimum score is in best, with the maximum in worst |
| `Comparison.GlobalGroupsExist` | credit_score_frontend/dashboard.py:404-414 | the all-clients groups fail exactly on an empty store |
| `ConvertTypes.ContainsAt` | credit_score_backend/server/controllers/config.py:16 | an occurrence of the substring at any position makes `sub in s` true |
| `ConvertTypes.ContainsWitness` | credit_score_backend/server/controllers/config.py:16 | `sub in s` is true only at an actual occurrence |
| `ConvertTypes.Unique` | credit_score_backend/server/controllers/config.py:24 | the distinct values, missing included, each once, first value first |
| `ConvertTypes.NUnique` | credit_score_backend/server/controllers/config.py:20 | the count is `unique()` less the missing value when there is one, and never more than the row count |
| `ConvertTypes.NUniqueCounts` | credit_score_backend/server/controllers/config.py:20 | the count is the number of distinct non-missing values of the column |
| `ConvertTypes.DistinctCardinality` | credit_score_backend/server/controllers/config.py:20 | a sequence without repeats has as many elements as its set of values |
| `ConvertTypes.NUniqueBelowLength` | credit_score_backend/server/controllers/config.py:20 | `nunique()` is below the row count exactly when the column has a missing value or a repeated value |
| `ConvertTypes.UniqueShorterOnRepeat` | credit_score_backend/server/controllers/config.py:24 | a repeated value makes `unique()` shorter than the column |
| `ConvertTypes.UniqueSnocSeen` | credit_score_backend/server/controllers/config.py:24 | appending a value `unique()` already lists leaves `unique()` unchanged |
| `ConvertTypes.UniqueSnocNew` | credit_score_backend/server/controllers/config.py:24 | appending a value `unique()` does not list adds it at the end |
| `ConvertTypes.UniqueOfDistinct` | credit_score_backend/server/controllers/config.py:24 | a column of distinct values is its own `unique()` |
| `ConvertTypes.NUniqueOfDistinct` | credit_score_backend/server/controllers/config.py:20 | distinct non-missing values give `nunique()` equal to the row count |
| `ConvertTypes.OneZeroCharacterised` | credit_score_backend/server/controllers/config.py:24 | `unique()` is exactly `[1, 0]` iff the column starts with 1, contains a 0 and holds only 1 and 0 |
| `ConvertTypes.UniqueOfOnes` | credit_score_backend/server/controllers/config.py:24 | a non-empty column of 1s has `unique()` `[1]` |
| `ConvertTypes.UniqueOfOnesAndZeros` | credit_score_backend/server/controllers/config.py:24 | a 1-first column of 1s and 0s has `unique()` `[1, 0]` or `[1]` |
| `ConvertTypes.ZeroFirstIsNotOneZero` | credit_score_backend/server/controllers/config.py:24 | a column starting with 0 fails the `[1, 0]` test |
| `ConvertTypes.ConstantIsNotOneZero` | credit_score_backend/server/controllers/config.py:24 | a constant column fails the `[1, 0]` test |
| `ConvertTypes.FillNullWithZero` | credit_score_backend/server/controllers/config.py:17 | same length, no missing value left, every present value kept |
| `ConvertTypes.ConvertColumn` | credit_score_backend/server/controllers/config.py:15-33 | name and length are kept; values change only by the id rule's `fillna(0)` |
| `ConvertTypes.IdColumnWins` | credit_score_backend/server/controllers/config.py:16-17 | a name containing SK_ID gives int32 with no missing values, whatever the dtype and values |
| `ConvertTypes.IdMarkerAnywhere` | credit_score_backend/server/controllers/config.py:16 | SK_ID anywhere in the name, not only as prefix, triggers the id rule |
| `ConvertTypes.ObjectToCategoryIff` | credit_score_backend/server/controllers/config.py:20-21 | a non-id object column becomes category iff its distinct non-missing count is below the row count |
| `ConvertTypes.DistinctObjectStays` | credit_score_backend/server/controllers/config.py:20-25 | a non-id object column of distinct present values that is not `[1, 0]` is left as it is |
| `ConvertTypes.BoolIff` | credit_score_backend/server/controllers/config.py:24-25 | past the first two rules, a non-bool column becomes bool iff it starts with 1, contains 0, holds only 1 and 0 |
| `ConvertTypes.ZeroFirstFloatStaysNumeric` | credit_score_backend/server/controllers/config.py:24-29 | a float column starting with 0 becomes float32, not bool |
| `ConvertTypes.ConstantIntStaysNumeric` | credit_score_backend/server/controllers/config.py:24-33 | a constant int column becomes int32, not bool |
| `ConvertTypes.NumericNarrowing` | credit_score_backend/server/controllers/config.py:28-33 | past the first three rules, float64 becomes float32, int64 becomes int32, and any other dtype is kept |
| `ConvertTypes.ResultDType` | credit_score_backend/server/controllers/config.py:15-33 | the new dtype is int32, category, bool, float32 or the old one |
| `ConvertTypes.NotIdempotent` | credit_score_backend/server/controllers/config.py:20-25 | an object column [1, 0, 1] becomes category on one pass and bool on a second |
| `ConvertTypes.ConvertAll` | credit_score_backend/server/controllers/config.py:13-33 | same number of columns, each keeping its name, order and length |
| `ConvertTypes.FrameKeepsDistinctObjects` | credit_score_backend/server/controllers/config.py:13-25 | in a well-formed frame, a non-id object column of distinct present values that is not `[1, 0]` is left as it is by the whole-frame conversion |
| `ConvertTypes.DataFrame.ConvertTypes` | credit_score_backend/server/controllers/config.py:8-41 | the same frame is returned; row count kept; column i becomes the conversion of old column i; the result does not depend on `print_info` |

## Left out

- `compute_credit_score` (dashboard.py:50-56). It uses natural logarithms and float rounding. The classifier takes the integer score as its input. The division by 100 only matters for reading the "Credit Score" column as a percentage.
- `load_data` (dashboard.py:19-45). It is HTTP and JSON I/O with error display. An empty result shows up in the model only as an empty store.
- The per-group `.mean()` values and the headline cohort score (dashboard.py:156-157, the `.mean()` calls in the charts). They are float aggregates fed to charts.
- The rounding of the personal-information table (dashboard.py:217-218) and all Plotly and Streamlit layout.
- `Bucketing.DaysToYears`: exact real arithmetic, with no float rounding. A text value gives a missing result, where pandas would raise.
- `Bucketing.MinScore`: the "Credit Score" column is modelled without missing values, where pandas' `min()` and `max()` would skip NaN.
- `Bucketing.GroupFramesOf`: only the derived columns the group frames add are represented, not the columns copied from the cohort.
- `get_filtered_client_data`. Its module `helper_functions` is not part of this model. `Table.Matches` is an assumed stand-in, not a model of its code.
- The Flask controllers and `server/__init__.py`. They are request validation and pandas row filters serialised to JSON.
- `load_csv_file` and the module-level loading in config.py (43-75). They are file I/O and process-wide globals.
- `convert_types`' memory report and printing (config.py:10, 35-39). It is output only.
- `ConvertTypes.Unique`: states that the first value comes first, not the whole first-appearance order pandas keeps. The `[1, 0]` test needs no more, because `unique()` lists each value once.
- `ConvertTypes.ConvertColumn`: the numeric effect of the casts is not modelled: float32 rounding, int32 truncation and overflow, and exceptions raised by `astype`.
- `ConvertTypes.DataFrame.ConvertTypes`: columns are taken by position. Duplicate column labels, where `df[c]` would return a frame, are not modelled.
- `credit_score_data_modeling/mlflow/train.py`. It is LightGBM training and MLflow logging.
