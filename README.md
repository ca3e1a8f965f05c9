# Sleep-quality risk prediction: the core, modelled in Dafny

The application takes a subject's health-survey answers and prepares them for a pre-trained
binary classifier. It reports the class-1 probability as a 0–100 risk score in one of three
bands. It also draws a SHAP waterfall that breaks the prediction down feature by feature. The
model covers the deterministic core of `app.py`:

- **Preprocessing** (`preprocess_input`), module `Preprocess` in `preprocess.dfy`. The raw record
  is a map from feature identifier to a real value. The fitted ordinal encoder and the
  continuous scaler are optional per-column functions (`None` when the artifact was not loaded).
  A one-row pandas frame is a sequence of labelled columns, and labels may repeat. `df[list]`
  follows pandas: every column carrying each requested label is selected, or a KeyError lists
  the absent labels. `PreprocessInput` runs the required-feature check, the projection, the two
  block transforms, the three-way merge and the final reindex, in that order.
- **Waterfall construction** (the data half of `generate_shap_plot`), module `Waterfall` in
  `waterfall.dfy`. `ArgsortDescending` is a spec function giving the visit order.
  `BuildChart` is the imperative loop that fills the parallel lists `positions`, `values`,
  `colors` and `labels` and updates the running sum. It is proved against `IsChart`, which gives
  prefix-sum offsets, one colour per bar, and final offset = baseline + Σ contributions.
- **Risk banding**, module `Risk` in `risk.dfy`: `risk_score = probability * 100` with the
  fixed thresholds 25 and 35.
- **Positive-class selection and the request flow of `main`**, module `App` in `app.dfy`. `PositiveShap` and `PositiveBaseline` select the positive-class SHAP
  values and baseline. `Explain` is the `try` block around the waterfall. `HandleSubmission`
  ties the prediction, its band and the explanation to one preprocessed row.

`Outcome` (`outcome.dfy`) holds the `Option` and `Result` datatypes. Every numeric quantity is
an exact `real`.

The classifier (`predict_proba(X)[0, 1]`), the explainer's `shap_values(X)` and its
`expected_value` are parameters of `HandleSubmission`. Nothing relates them to each other.
The classifier and `shap_values` return `None` where the library call raises. A failing
classifier ends at the "Prediction failed" handler (`ClassifierFailed`). A failing explainer
ends at the "Feature impact analysis generation failed" warning
(`SelectionFailed(ExplainerFailed)`), and the prediction is still reported.

Where the code does not do what the application evidently intends, the model follows the code:
- A stable order among features of equal magnitude would be expected in the waterfall; the
  code gives none. The order comes from `np.argsort(...)[::-1]`, which promises nothing about
  ties, so the model states only "permutation, magnitudes non-increasing".
- If `generate_shap_plot` fails with an IndexError, it catches the error itself, reports it and
  returns `None`, so no chart is shown (`PlotFailed`). The "Feature impact analysis generation
  failed" warning (`SelectionFailed`) is reached when `explainer.shap_values` raises or when
  the class/baseline selection fails.
- The contributions and the baseline would be expected to come from the same, positive class.
  The code selects them separately. A per-class list with a one-entry baseline vector gives class 1's
  contributions beside class 0's baseline. A single matrix with a two-entry baseline vector
  gives the matrix as it is beside class 1's baseline. `ClassesAgreeIff`,
  `PerClassWithSingleBaseline` and `SingleOutputWithVectorBaseline` state this.
- A bar label would be expected to show the answer as entered. The code labels it with the
  preprocessed value `X.values[0][idx]`, which is encoded or scaled, not the raw answer. The
  model does the same: `featureValues` is `RowValues` of the preprocessed frame.
- The final offset of the waterfall would be expected to equal the predicted probability; the
  code does not check it. The model proves "final offset = baseline + Σ contributions" and nothing
  about the classifier.

## Model

| member | source | states |
|---|---|---|
| Preprocess.Absent | app.py:400 | the missing-feature list has exactly the requested identifiers that are absent, never more entries than requested |
| Preprocess.AbsentAppend | app.py:400 | the missing list distributes over concatenation, so absent identifiers keep the order of `selected_features` |
| Preprocess.Project | app.py:404 | the projected record keeps exactly the input keys that are selected features, with their values unchanged |
| Preprocess.TransformBlock | app.py:408-421 | transforming a block fails exactly when one of its columns is missing from the row, with those columns listed in order; otherwise column i is the transformer applied to the raw value of the block's i-th identifier |
| Preprocess.Block | app.py:408-423 | a block with an empty list or no loaded transformer is an empty frame; otherwise it is the transformed block |
| Preprocess.Merge | app.py:426-431 | the three-way merge of the blocks is their concatenation, categorical first |
| Preprocess.GatherMembers | app.py:433 | `df[list]` selects exactly the frame's columns whose label is requested |
| Preprocess.GatherCount | app.py:433 | duplicates are kept on both sides: a column occurs in the selection its count in the frame times the number of requests for its label |
| Preprocess.GatherAppend | app.py:433 | the selection follows the request order: a concatenated request selects the first part's columns, then the second's |
| Preprocess.GatherSingle | app.py:433 | a request of one label selects the columns carrying that label |
| Preprocess.Reindex | app.py:433 | `df[selected_features]` fails exactly when some requested label is not a column, and lists the absent labels in request order |
| Preprocess.EncodeRow | app.py:405-433 | after the required-feature check, the only error is a column KeyError |
| Preprocess.PreprocessInput | app.py:393-439 | the result is a missing-features error exactly when some selected feature is absent from the input; it lists exactly the absent ones, in selected-feature order, whatever the transformers; any other error is a column KeyError |
| Preprocess.ExtraKeysIgnored | app.py:404 | two inputs that agree on the selected features preprocess to the same result |
| Preprocess.ExtraKeysNeverFail | app.py:404 | adding keys that are not selected features never changes the result, so never causes an error |
| Preprocess.EncodeRowOkIff | app.py:405-433 | on a row holding exactly the selected features, encoding succeeds iff each applied block names only selected features and the applied blocks cover every selected feature |
| Preprocess.PreprocessSucceedsIff | app.py:393-433 | preprocessing succeeds iff no selected feature is missing, each applied block names only selected features, and every selected feature is produced by an applied block |
| Preprocess.UncoveredFeatureFails | app.py:413-433 | a selected feature whose block is skipped (empty list or no transformer) and that the other block does not produce makes preprocessing fail |
| Preprocess.GatherUnique | app.py:433 | reindexing a frame with distinct labels by present labels yields one column per requested label, in request order |
| Preprocess.ReindexIgnoresColumnOrder | app.py:426-433 | two frames with distinct labels holding the same columns reindex alike, so the concatenation order does not matter |
| Preprocess.PreprocessColumnOrder | app.py:408-433 | on success with disjoint, duplicate-free blocks, the output labels are exactly `selected_features` in order, and every output column holds the encoder's (categorical) or the scaler's (continuous) value of its feature's raw input |
| Waterfall.DisplayName | app.py:496-510 | a bar's name is the mapped display name when the identifier is known, otherwise the identifier itself; it never fails |
| Waterfall.InsertSorted | app.py:488 | inserting an index into an order with non-increasing magnitude keeps the magnitudes non-increasing |
| Waterfall.SortPrefixPermutes | app.py:488 | the insertion sort of the first k indices is a permutation of 0..k-1 |
| Waterfall.ArgsortDescending | app.py:488 | the visit order is a permutation of 0..n-1 along which the absolute contribution never increases |
| Waterfall.SumOfPermutation | app.py:505-526 | adding up the contributions in any visit order that is a permutation gives the plain total |
| Waterfall.WalkStep | app.py:505-514 | one loop iteration appends the running offset, the contribution, its colour and its label, and advances the running sum by the contribution |
| Waterfall.WalkDone | app.py:505-526 | after the walk, offsets are prefix sums starting at the baseline, each bar ends where the next starts, red marks exactly the strictly positive contributions, and the final sum is baseline + Σ contributions |
| Waterfall.BuildChart | app.py:487-514 | the order is a descending-magnitude permutation; the walk succeeds iff every index has a feature name and a feature value, and fails at the first visited index that lacks one; on success the lists are those of `IsChart` |
| Risk.RiskScore | app.py:666 | a probability in [0, 1] becomes a score in [0, 100], and dividing by 100 gives the probability back |
| Risk.Band | app.py:669-694 | a score below 25 is Low, from 25 below 35 is Medium, from 35 on is High; exactly one band applies |
| Risk.BandMonotone | app.py:669-694 | a higher score never gets a lower band |
| Risk.BandBoundaries | app.py:669-694 | 25 is Medium and 35 is High, and every score below a threshold is in the band below it |
| Risk.ProbabilityBand | app.py:666-694 | in terms of the probability: Low below 0.25, Medium from 0.25 below 0.35, High from 0.35 |
| App.PositiveShap | app.py:737-739 | a per-class list gives its class-1 matrix and fails if it has fewer than two entries; a single matrix is taken as it is |
| App.PositiveBaseline | app.py:741-743 | a scalar baseline is taken as it is; a vector gives index 1 when it has more than one entry, index 0 when it has one, and fails when empty |
| App.ShapClass | app.py:738-739 | the class index of the contributions: 1 of a per-class list with at least two entries, and that matrix is what `PositiveShap` selects; a single matrix carries no class index |
| App.BaselineClass | app.py:742-743 | the class index of the baseline: 1 or 0 of a non-empty vector, and that entry is what `PositiveBaseline` selects; a scalar carries no class index |
| App.ClassesAgreeIff | app.py:737-743 | with per-class contributions, the baseline comes from the same class exactly when the baseline vector has more than one entry |
| App.PerClassWithSingleBaseline | app.py:737-743 | two per-class matrices with a one-entry baseline give class 1's contributions beside class 0's baseline |
| App.SingleOutputWithVectorBaseline | app.py:737-743 | a single matrix with a two-entry baseline gives the matrix as it is beside class 1's baseline |
| App.RowValues | app.py:745 | the vector passed on is the frame's single row, column by column |
| App.Explain | app.py:736-752 | on the explainer's output, selection fails exactly when the class list, the baseline or the first SHAP row is missing; a built chart is the waterfall of the first positive-class row, the selected baseline and the same preprocessed row; the plot fails exactly when that row is longer than the feature names or the feature values |
| App.HandleSubmission | app.py:660-761 | a preprocessing error is returned as it is; otherwise the response is a classifier failure exactly when the classifier raises; when it does not, the probability is the classifier's on the preprocessed row, the score is 100 times it, the band is that score's band, a raising explainer gives the warning, and otherwise the explanation is built from the same row |

## Left out

- Streamlit page setup, CSS, form widgets, result HTML, descriptions and recommendation texts, and the `risk_class`/`risk_color` strings: presentation only.
- `get_model_dir` and `load_models`: filesystem checks, joblib/pickle/JSON loading and explainer construction. `FeaturesInfo` is given, with its three lists always present.
- `model.predict_proba`, `explainer.shap_values` and `explainer.expected_value`: opaque library calls, modelled as parameters. Whether the first two raise is the parameter's choice (`None`), not derived from their inputs. Nothing is proved about baseline + Σ contributions matching the probability, because nothing in the code establishes it.
- The fitted ordinal encoder and scaler: modelled as total per-column functions of the raw value. Their own errors (unknown category, feature-name or shape checks) are not modelled.
- `configure_chinese_fonts` and all matplotlib drawing: platform and font lookups and plotting.
- Label formatting (`:.2f`, `:+.3f`, `:.1f`, `:.4f`): a label is kept as its (display name, value) pair.
- The tie order of the waterfall sort: `np.argsort` is not stable as called and the result is reversed. The model's insertion sort fixes some tie order, and no contract mentions it.
- IEEE floating point (rounding, NaN, infinities): all quantities are exact reals. In particular the band of a probability is computed on the exact product `probability * 100`.
- The text of pandas' KeyError and of the ValueError message: an error carries the list of absent identifiers and nothing else.
- A frame with zero rows (from `pd.DataFrame()` when both blocks are skipped): modelled as a one-row frame with no columns.
- SHAP's newer three-dimensional array output (rows × features × classes): `SingleOutput` is a rows × features matrix.
- The `st.error` report that `preprocess_input` and `generate_shap_plot` emit before re-raising or returning `None`: a side effect on the page.
- Concurrency and caching (`st.cache_resource`): one request is modelled at a time.
