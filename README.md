# Anomaly detection in the ColonyOS tutorials, in Dafny

This project models the sequential logic of the anomaly-detection tutorials
of the ColonyOS tutorials repository, plus the unit conversion of its FaaS
tutorial. The tutorials detect voltage dips in a 50 Hz, 230 V AC signal:

- A synthetic sample is generated with dips ("anomalies") injected at
  random. Each dip scales a run of samples by a drop factor and labels them 1.
- The detector compares the histogram of a sample against the histogram of
  a reference wave by Kullback–Leibler divergence. A divergence strictly
  above a threshold is an anomaly.
- A calibration script cuts a long recording into one-second windows. It
  trims each window to its zero crossings, scores each window against the
  first normal window, and measures accuracy, precision, recall and F1 against
  the per-window ground truth.
- Two small FastAPI services keep time series in an in-memory dict. Client
  scripts upload a generated sample with a PUT request.

One module per component:

- `ZeroCrossings`: `find_zero_crossings` and `trim_to_zero_crossings`.
- `Windowing`: the `range(0, len - window, step)` chunking loops and the
  per-window ground truth.
- `Metrics`: predictions and the four scores as functions of confusion counts.
- `Detector`: the floored histogram, the reference-first strict verdict, and
  the module-level reference wave of the detector scripts. That reference
  becomes the class `ReferenceDetector`.
- `Injection`: the anomaly-injection loop of `generate_single_sample` and
  gen_dataset.py. It is an imperative loop over two arrays; the random draws
  are given as a `seq<bool>` ("draw i fired").
- `Executor`: the `AnomalyDetectorExecutor` class, whose reference is fixed
  in the constructor, and the reference-versus-sample script of the detector
  test.
- `Calibration`: the top level of calc_kl_div_threshold.py.
- `OrderedDict` and `Records`: Python's insertion-ordered dict, and the
  records, views and listings of the two stores.
- `Backend` and `Database`: the stores of backend.py and database.py. Each
  is a class whose `database` field the handlers reassign.
- `Upload`: the points list and the payload of upload_sample_test.py and
  submit.py, stored into a `Backend` store.
- `Faas`: `convert`.

Several functions are copied between files:

- `compute_histogram` and `compute_kl_divergence` have the same body in five
  places. These are calc_kl_div_threshold.py:44-51 and executor.py:62-68 in
  12-anomaly-detection, and anomaly_detector_backend_test.py:28-34,
  anomaly_detector_test.py:38-44 and gen_and_test_sample.py:11-17 in
  11-anomaly-detection.
- `detect_anomaly` is identical in the three 11-anomaly-detection scripts.
  Each reads the module-level `reference_wave_global` and raises `ValueError`
  while it is `None`; `Detector.ReferenceDetector` models that.
- The executor.py version (lines 70-76) has no such check. It reads the
  `reference_wave` field that `__init__` sets; the
  `Executor.AnomalyDetectorExecutor` class models that.
- `Detector.Detect` models the scoring all of them share.

One `GenerateSingleSample` models the injection loop that executor.py,
anomaly_detector_backend_test.py, anomaly_detector_test.py, submit.py and
upload_sample_test.py each copy. gen_dataset.py runs the same loop with 100
and 0.2 written in.

## Inputs and parameters

- `np.histogram` and `scipy.stats.entropy` are passed in as the two functions
  of a `Detector.Numerics` value. Their results are unconstrained.
  - The floor facts are stated for any histogram; they need non-negative
    densities only where the lemma says so.
  - Verdicts that depend on a divergence value state that value as a
    hypothesis. An example is `entropy(h, h) == 0`.
- The sine wave, `np.arange` and the timestamps are inputs. So are the
  random draws, a `seq<bool>`.
- The threshold formula is a parameter `thresholdRule`.
- sklearn's value for undefined precision, recall and F1 is a parameter
  `zeroDivision`.
- `str` of a float is a parameter `show`.

## Behaviour worth knowing

- **Last window dropped.** calc_kl_div_threshold.py:31 and :38 stop the range
  strictly below `len - window`, so there are ceil((len − window) / step)
  windows. When step divides len − window, the last full window is never
  scored (`Windowing.LastFullWindowDropped`). With step equal to window
  (lines 28-29), the windows tile the recording without overlap, whatever the
  comment on line 29 says (`Windowing.TilingWindowsDisjoint`).
- **Trim excludes the last crossing.** In calc_kl_div_threshold.py:16 the
  slice `signal[zero_crossings[0]:zero_crossings[-1]]` starts at the first
  crossing and excludes the sample at the last one (`ZeroCrossings.TrimmedSpan`).
- **Absent ids answer 500.** backend.py raises a 404 inside `try` for an absent
  id: get at :34-35, patch at :66-67, delete at :79-80. The handler-wide
  `except Exception` at :44-45, :72-73 and :85-86 re-raises it as a 500.
  database.py does the same (:36-37 with :47-48, and likewise for update and
  delete).
- **Listing filter.** The backend.py listing (:51-56) lists either every
  record or only those whose `anomaly` is true. The database.py listing (:55)
  has no filter.
- **Key of a put.** backend.py:23 stores the record under the path id;
  database.py:22 stores it under the body's `process_id`.
- **Extra payload field.** The submit.py payload (:63-68) carries a `ts_id`
  field that `TimeSeriesInput` (backend.py:14-17) does not declare, and an
  empty `process_id`.
- **Client scripts.** upload_sample_test.py and submit.py are modelled against
  a freshly started server: `Upload.UploadSampleTest` and `Upload.SubmitSample`
  create an empty `Backend.TimeSeriesBackend`. Only because of that is the
  body's empty id certain to name nothing (`underBodyId`). submit.py's random
  id (:57) is meant for a long-running server that may hold other entries.

## Model

| member | source | states |
|---|---|---|
| ZeroCrossings.Sign | 12-anomaly-detection/calc_kl_div_threshold.py:9 | `np.sign`: -1, 0 or 1; 0 exactly for 0.0 and 1 exactly for positive samples |
| ZeroCrossings.CrossingsFrom | 12-anomaly-detection/calc_kl_div_threshold.py:9 | strictly increasing; holds exactly the crossings at or after `from` |
| ZeroCrossings.FindZeroCrossings | 12-anomaly-detection/calc_kl_div_threshold.py:8-10 | strictly increasing, and i is in it iff 0 ≤ i < len−1 and sign(s[i]) ≠ sign(s[i+1]); touching zero counts |
| ZeroCrossings.TrimToZeroCrossings | 12-anomaly-detection/calc_kl_div_threshold.py:13-18 | with fewer than two crossings the input comes back unchanged; the result is never longer than the input |
| ZeroCrossings.TrimmedSpan | 12-anomaly-detection/calc_kl_div_threshold.py:15-16 | with two or more crossings: the result is s[first..last), starting at the first crossing and excluding the sample at the last; its length last−first is ≥ 1; no crossing lies before first or after last |
| Windowing.RangeFrom | 12-anomaly-detection/calc_kl_div_threshold.py:31 | `range(start, stop, step)`: empty iff start ≥ stop, first element start, every element in [start, stop) |
| Windowing.RangeFromAt | 12-anomaly-detection/calc_kl_div_threshold.py:31 | element k of the range is start + k·step |
| Windowing.RangeFromLength | 12-anomaly-detection/calc_kl_div_threshold.py:31 | start + length·step ≥ stop: the range runs until it reaches stop |
| Windowing.WindowStarts | 12-anomaly-detection/calc_kl_div_threshold.py:28-31 | there is a window iff n > window, and every window fits inside the recording |
| Windowing.WindowStartAt | 12-anomaly-detection/calc_kl_div_threshold.py:31 | window k starts at k·step |
| Windowing.WindowCount | 12-anomaly-detection/calc_kl_div_threshold.py:31 | the count c satisfies (c−1)·step < n−window ≤ c·step, i.e. ceiling division |
| Windowing.LastFullWindowDropped | 12-anomaly-detection/calc_kl_div_threshold.py:29-31 | when n−window = m·step, the full window at m·step is not produced and there are exactly m windows |
| Windowing.TilingWindowsDisjoint | 12-anomaly-detection/calc_kl_div_threshold.py:28-29 | with step = window, an earlier window ends at or before a later one starts, so there is no overlap despite the "overlap" comment |
| Windowing.Window | 12-anomaly-detection/calc_kl_div_threshold.py:32 | `iloc[i:i + window]`: exactly window samples, sample j being xs[i+j] |
| Windowing.TrimmedChunks | 12-anomaly-detection/calc_kl_div_threshold.py:30-41 | the loop builds the list whose chunk k is window k of the wave, trimmed; one chunk per window start |
| Windowing.Max | 12-anomaly-detection/calc_kl_div_threshold.py:75 | `np.max`: an element of the window that bounds all others |
| Windowing.GroundTruth | 12-anomaly-detection/calc_kl_div_threshold.py:72-75 | the loop builds the list whose entry k is the maximum label of untrimmed window k |
| Windowing.GroundTruthIsAnyLabel | 12-anomaly-detection/calc_kl_div_threshold.py:74-75 | with 0/1 labels, a window's ground truth is 0 or 1, and 1 iff some sample in the untrimmed window is labelled 1 |
| Windowing.ChunksAligned | 12-anomaly-detection/calc_kl_div_threshold.py:31-75 | the normal chunks, anomaly chunks and ground truth of one table have one entry per window start; entry k of each comes from the window at k·step (which fits in the table): the trimmed normal window, the trimmed anomaly window and the maximum label of that window |
| Metrics.Predict | 12-anomaly-detection/calc_kl_div_threshold.py:69 | one prediction per divergence |
| Metrics.PredictStrict | 12-anomaly-detection/calc_kl_div_threshold.py:69 | prediction k holds iff kl[k] > threshold; a divergence equal to the threshold is normal |
| Metrics.Count | 12-anomaly-detection/calc_kl_div_threshold.py:81-84 | every chunk falls in one confusion cell: tp+fp+fn+tn is the number of chunks |
| Metrics.CountCells | 12-anomaly-detection/calc_kl_div_threshold.py:81-84 | tp+fp = predicted positives, tp+fn = actual positives (label 1), tp+tn = matches |
| Metrics.PredictedPositives | 12-anomaly-detection/calc_kl_div_threshold.py:82 | tp+fp counts the true predictions |
| Metrics.ActualPositives | 12-anomaly-detection/calc_kl_div_threshold.py:83 | tp+fn counts the labels equal to 1 |
| Metrics.MatchCount | 12-anomaly-detection/calc_kl_div_threshold.py:81 | tp+tn counts the chunks whose prediction agrees with the ground truth |
| Metrics.Accuracy | 12-anomaly-detection/calc_kl_div_threshold.py:81 | in [0, 1], and 1 iff there are no false positives and no false negatives |
| Metrics.Precision | 12-anomaly-detection/calc_kl_div_threshold.py:82 | tp/(tp+fp) in [0, 1], equal to 1 iff fp = 0; the zero-division value when nothing is predicted positive |
| Metrics.Recall | 12-anomaly-detection/calc_kl_div_threshold.py:83 | tp/(tp+fn) in [0, 1], equal to 1 iff fn = 0; the zero-division value when nothing is positive |
| Metrics.F1 | 12-anomaly-detection/calc_kl_div_threshold.py:84 | in [0, 1] and 1 iff fp+fn = 0; the zero-division value when tp, fp and fn are all 0 |
| Metrics.F1IsHarmonicMean | 12-anomaly-detection/calc_kl_div_threshold.py:82-84 | with tp > 0, F1 is the harmonic mean of precision and recall |
| Metrics.PerfectPrediction | 12-anomaly-detection/calc_kl_div_threshold.py:81-84 | predictions that agree with a ground truth that has a positive give accuracy = precision = recall = F1 = 1 |
| Detector.ComputeHistogram | 12-anomaly-detection/executor.py:62-65 | same edges and number of cells as numpy's histogram |
| Detector.HistogramFloored | 12-anomaly-detection/executor.py:63-64 | each cell is the density plus 1e-10, so a non-negative density gives a cell ≥ 1e-10 > 0 |
| Detector.FloorMass | 12-anomaly-detection/executor.py:64 | the floor adds exactly (number of cells)·1e-10 to the total mass |
| Detector.Detect | 12-anomaly-detection/executor.py:70-76 | returns (verdict, divergence); the divergence takes the reference histogram first and the sample's second; verdict iff divergence > threshold |
| Detector.VerdictMonotone | 12-anomaly-detection/executor.py:74 | the divergence does not depend on the threshold; a higher threshold only removes anomalies; equality is normal |
| Detector.SelfIsNormal | 12-anomaly-detection/executor.py:71-74 | the reference scored against itself is normal for any threshold ≥ 0, when the divergence of equal histograms is 0 |
| Detector.ArgumentOrderMatters | 12-anomaly-detection/executor.py:73 | for an asymmetric divergence, swapping reference and sample can flip the verdict |
| Detector.ReferenceDetector.constructor | 11-anomaly-detection/anomaly_detector_backend_test.py:22 | the reference starts unset |
| Detector.ReferenceDetector.SetReferenceWave | 11-anomaly-detection/anomaly_detector_backend_test.py:24-26 | the reference is replaced by the argument |
| Detector.ReferenceDetector.DetectAnomaly | 11-anomaly-detection/anomaly_detector_backend_test.py:36-47 | fails (ValueError) iff the reference is unset; otherwise the detection against the current reference; reads the reference and never assigns it |
| Detector.DetectTwice | 11-anomaly-detection/gen_and_test_sample.py:19-30 | after a set, two detections give the same result, the one against the set reference with the default threshold |
| Detector.DetectBeforeSet | 11-anomaly-detection/anomaly_detector_test.py:46-50 | detecting before any set is the ValueError |
| Executor.AnomalyDetectorExecutor.constructor | 12-anomaly-detection/executor.py:25-26 | the reference is the normal wave of the generated sample |
| Executor.AnomalyDetectorExecutor.DetectAnomaly | 12-anomaly-detection/executor.py:70-76 | reference-first divergence, strict verdict; only reads the reference |
| Executor.ExecutorSelfCheck | 12-anomaly-detection/executor.py:25-26 | whatever the draws, the executor scores its own reference as normal with divergence 0, when the divergence of equal histograms is 0 |
| Executor.ReferenceVsSample | 11-anomaly-detection/anomaly_detector_test.py:59-66 | the script scores the anomaly wave against the normal wave of the same sample; with no draw fired the two are equal, and the verdict is "no anomaly" when the divergence of equal histograms is 0 |
| Injection.GenerateSingleSample | 12-anomaly-detection/executor.py:78-103 | time and normal wave unchanged; a segment starts at i iff draw i fires and no segment is in progress; labels are 1 exactly in [start, min(start+duration, n)) of some start; labelled samples are normal·drop and all others equal normal |
| Injection.InjectStep | 12-anomaly-detection/executor.py:87-94 | one iteration keeps the loop state: starts, flag, labels and scaled wave as the segments so far give them |
| Injection.StartSegment | 12-anomaly-detection/executor.py:88-92 | a fired draw while no segment is in progress appends i to the starts and marks its segment |
| Injection.MarkSegment | 12-anomaly-detection/executor.py:89-91 | the two slice assignments: labels 1 and the wave scaled by drop on [i, end), nothing else changed |
| Injection.StepStart | 12-anomaly-detection/executor.py:88-92 | marking the new segment restores the loop state at i+1 with the flag set |
| Injection.StepClear | 12-anomaly-detection/executor.py:93-94 | at an unlabelled index with no start, the flag is cleared and the loop state holds at i+1 |
| Injection.StepKeep | 12-anomaly-detection/executor.py:86-94 | at a labelled index with no start, the flag is kept and the loop state holds at i+1 |
| Injection.GenDataset | 12-anomaly-detection/gen_dataset.py:17-30 | the same loop with duration 100 and drop 0.2: some start list explains the labels and the wave |
| Injection.SegmentsDisjoint | 12-anomaly-detection/executor.py:86-94 | two different segments share no sample |
| Injection.SegmentsSeparated | 12-anomaly-detection/gen_dataset.py:28-30 | for duration ≥ 1, the sample just after any segment is unlabelled, so segments are separated by a normal sample |
| Injection.LabelsAreSegments | 11-anomaly-detection/anomaly_detector_test.py:15-22 | labels are 0 or 1, and 1 exactly inside some segment [s, min(s+duration, n)) |
| Injection.NoDrawNoAnomaly | 11-anomaly-detection/anomaly_detector_test.py:12-23 | with no draw fired there are no segments, all labels are 0 and the anomaly wave equals the normal wave |
| OrderedDict.Empty | 11-anomaly-detection/backend.py:8 | the empty dict |
| OrderedDict.Assign | 11-anomaly-detection/backend.py:23-26 | `d[k] = v`: the value under k is replaced; an existing key keeps its place, a new key goes last |
| OrderedDict.Remove | 11-anomaly-detection/backend.py:82 | `del d[k]`: only k leaves, the other keys keep their order |
| OrderedDict.AssignTwice | 11-anomaly-detection/backend.py:23-26 | two assignments to one key equal the last one: a full replacement |
| OrderedDict.AssignLookup | 11-anomaly-detection/backend.py:23-26 | after assignment, k has the new value and every other key is as before |
| OrderedDict.RemoveUndoesAdd | 11-anomaly-detection/backend.py:76-82 | deleting a key just added restores the dict |
| Records.StoredAnomaly | 11-anomaly-detection/backend.py:17 | an omitted `anomaly` is False, a given one is kept |
| Records.RecordOf | 11-anomaly-detection/backend.py:23-26 | the stored record holds the body's data and anomaly flag |
| Records.Summaries | 11-anomaly-detection/backend.py:51-56 | every listed entry is (id, its flag) of a stored key, anomalous when filtering; every qualifying key is listed |
| Records.SummariesUnfiltered | 11-anomaly-detection/backend.py:55-56 | unfiltered, one entry per key in dict order |
| Records.SummariesFiltered | 11-anomaly-detection/backend.py:51-53 | filtered, the unfiltered listing with the normal entries dropped, order kept |
| Backend.TimeSeriesBackend.constructor | 11-anomaly-detection/backend.py:8 | the store starts empty |
| Backend.TimeSeriesBackend.CreateOrUpdateTimeseries | 11-anomaly-detection/backend.py:20-29 | the record under the path id is fully replaced; the body's process id is not the key |
| Backend.TimeSeriesBackend.GetTimeseries | 11-anomaly-detection/backend.py:31-45 | a 500 iff the id is absent; otherwise the requested id with its stored data and flag |
| Backend.TimeSeriesBackend.ListTimeseries | 11-anomaly-detection/backend.py:48-60 | (id, flag) of every record in dict order, or only the anomalous ones, order kept |
| Backend.TimeSeriesBackend.UpdateAnomalyStatus | 11-anomaly-detection/backend.py:63-73 | an absent id is a 500 with no change; otherwise only that record's flag changes |
| Backend.TimeSeriesBackend.DeleteTimeseries | 11-anomaly-detection/backend.py:76-86 | an absent id is a 500 with no change; otherwise exactly that key goes |
| Backend.PutThenGet | 11-anomaly-detection/backend.py:20-43 | put then get returns the data and flag under the path id; a different body id names nothing |
| Backend.PatchTwice | 11-anomaly-detection/backend.py:63-69 | patching twice with one flag equals patching once, and the data are untouched |
| Backend.DeleteThenGet | 11-anomaly-detection/backend.py:76-82 | after delete, get is a 500, the listing is empty and a second delete is a 500 |
| Backend.ListInPutOrder | 11-anomaly-detection/backend.py:48-56 | two puts are listed in put order; the filter keeps only the anomalous one |
| Database.TimeSeriesDatabase.constructor | 11-anomaly-detection/database.py:9 | the store starts empty |
| Database.TimeSeriesDatabase.Store | 11-anomaly-detection/database.py:18-28 | the record under the BODY's process id is fully replaced |
| Database.TimeSeriesDatabase.GetTimeseries | 11-anomaly-detection/database.py:32-48 | a 500 iff the id is absent; otherwise the stored data and flag |
| Database.TimeSeriesDatabase.ListTimeseries | 11-anomaly-detection/database.py:52-57 | one (id, flag) per record, in dict order, unfiltered |
| Database.TimeSeriesDatabase.UpdateTimeseries | 11-anomaly-detection/database.py:61-73 | an absent id is a 500 with no change; otherwise only that record's flag changes |
| Database.TimeSeriesDatabase.DeleteTimeseries | 11-anomaly-detection/database.py:77-89 | an absent id is a 500 with no change; otherwise exactly that key goes |
| Database.StoreTwiceThenGet | 11-anomaly-detection/database.py:18-48 | a second store under one id replaces the first: get returns it and the listing has one entry |
| Database.MissingIdFails | 11-anomaly-detection/database.py:61-89 | update and delete of an absent id are 500s and leave the store empty |
| Upload.ToPoints | 11-anomaly-detection/upload_sample_test.py:40 | one point per sample |
| Upload.PointsRoundTrip | 12-anomaly-detection/submit.py:55 | in row order, the points' values are the wave and their times are the rendered time column |
| Upload.UploadSampleTest | 11-anomaly-detection/upload_sample_test.py:35-53 | the payload id "1234" is the URL id, `anomaly` is False, the values are the anomaly wave, and get "1234" returns them unflagged |
| Upload.SubmitSample | 12-anomaly-detection/submit.py:9-70 | the upload is stored under the URL id, not the body's empty id; one "Anomaly detected" print per segment, at increasing indices |
| Calibration.KlDivergences | 12-anomaly-detection/calc_kl_div_threshold.py:58-62 | one divergence per anomaly chunk, reference histogram first |
| Calibration.Evaluate | 12-anomaly-detection/calc_kl_div_threshold.py:28-84 | an IndexError iff the recording is at most one window long; otherwise reference = first trimmed normal chunk, predictions strict against the derived threshold, ground truth per window, equal lengths, metrics from the confusion counts, accuracy in [0, 1] |
| Faas.Convert | 04-faas/deploy.py:4-5 | (f − 32)·5/9 gives the Celsius input back |
| Faas.ToCelsius | 04-faas/deploy.py:5 | the inverse: converting its result gives the Fahrenheit input back |
| Faas.RoundTrip | 04-faas/deploy.py:5 | Celsius → Fahrenheit → Celsius and back are identities |
| Faas.ConvertIncreasing | 04-faas/deploy.py:5 | strictly increasing |
| Faas.KnownPoints | 04-faas/deploy.py:5 | 0 → 32, 100 → 212, −40 → −40, and −40 is the only fixed point |

## Left out

- Histogram binning and density (`np.histogram`), and `scipy.stats.entropy`: library numerics, passed in as functions. No property of the divergence itself (non-negativity, zero on equal inputs) is proved; where a verdict needs one, it is a hypothesis.
- Floating point: every sample, density and score is a Dafny `real`, so rounding and NaN are not modelled.
- The threshold formula `mean + 0.1·std` needs a square root; it is the parameter `thresholdRule`. The "2 standard deviations" comment beside it does not match the 0.1 factor.
- sklearn's `zero_division="warn"`, which returns 0.0 and warns, is the parameter `zeroDivision`.
- Signal generation: `np.arange` with a float step and `np.sin` are inputs, and `np.random.rand() < p` is the oracle `draws[i]`. The anomaly probabilities (0.0001, 0.001, 0.00009, 0.1) therefore do not appear.
- Injection.GenerateSingleSample: the DataFrame is the `Sample` datatype; pandas itself is not modelled.
- HTTP and I/O:
  - `requests` calls: `fetch_time_series`, `update_anomaly_status` and `requests.put`;
  - FastAPI routing and pydantic validation;
  - the response message texts;
  - uvicorn;
  - the CSV files and the matplotlib plots;
  - the prints, except which indices submit.py prints, which `starts` records.
- HTTP status 422 for a body pydantic rejects is not modelled. A `Point` is already validated.
- Records.StoredAnomaly: an explicit JSON `null` for `anomaly`, which pydantic stores as `None`, is not modelled. Only "omitted" (False) and a given bool are.
- The ColonyOS plumbing of executor.py is not modelled: registration, the `start` assign loop including its fetch/detect/patch sequence, `unregister`, and the signal handler. Nor are the other ColonyOS executors and submission scripts, or `submit_job` in submit.py.
- The script body of anomaly_detector_backend_test.py (lines 88-110) is HTTP fetch and patch around `detect_anomaly`; only `detect_anomaly` and its setter are modelled.
- The script body of gen_and_test_sample.py (lines 32-42) calls a `generate_single_sample` that the file does not define.
- `convert_to_dataframe` is pandas plumbing.
- The earth-observation pipeline and the workflow executors are not part of this model.
- The random five-character executor id and `os.urandom` ids are inputs (`tsId`).
