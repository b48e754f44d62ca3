/** The client side of the time-series store: turning a generated sample
    into `{"time": str(t), "value": anomaly_wave[j]}` points and PUTting it
    (upload_sample_test.py and the main block of submit.py). The HTTP call
    is modelled as a put into a `Backend.TimeSeriesBackend`. */
module Upload {
  import opened Wrappers
  import opened Injection
  import opened Records
  import opened Backend

  /** The list comprehension over the sample's rows; `show` is `str` on a
      float. */
  function ToPoints(time: seq<real>, values: seq<real>, show: real -> string): (ps: seq<Point>)
    requires |time| == |values|
    ensures |ps| == |time|
  {
    seq(|time|, j requires 0 <= j < |time| => Point(show(time[j]), values[j]))
  }

  function Values(ps: seq<Point>): (vs: seq<real>)
  {
    seq(|ps|, j requires 0 <= j < |ps| => ps[j].value)
  }

  /** One point per row, in row order: the values read back are the wave and
      the times are the rendered time column. */
  lemma PointsRoundTrip(time: seq<real>, values: seq<real>, show: real -> string)
    requires |time| == |values|
    ensures Values(ToPoints(time, values, show)) == values
    ensures forall j :: 0 <= j < |time| ==> ToPoints(time, values, show)[j].time == show(time[j])
  {
  }

  /** The id that upload_sample_test.py uses both in the URL and in the body. */
  const TestProcessId: string := "1234"

  /** upload_sample_test.py: generate a sample, send its anomaly wave with
      `anomaly=False` under "1234". The record then reads back as exactly
      those points, unflagged, under the URL id, which is also the body's id. */
  method UploadSampleTest(time: seq<real>, normalWave: seq<real>, draws: seq<bool>, show: real -> string)
    returns (sample: Sample, payload: Input<Point>, stored: Result<View<Point>, HttpError>)
    requires |normalWave| == |time| == |draws|
    ensures |sample.anomalyWave| == |sample.isAnomaly| == |payload.data| == |time|
    ensures payload.processId == TestProcessId && payload.anomaly == Some(false)
    ensures Values(payload.data) == sample.anomalyWave
    ensures stored == Success(View(TestProcessId, payload.data, false))
    ensures forall j :: 0 <= j < |time| ==>
      payload.data[j].value == (if sample.isAnomaly[j] == 1 then normalWave[j] * DefaultAnomalyDrop else normalWave[j])
  {
    var starts;
    sample, starts := GenerateSingleSample(time, normalWave, draws, DefaultAnomalyDuration, DefaultAnomalyDrop);
    var points := ToPoints(sample.time, sample.anomalyWave, show);
    PointsRoundTrip(sample.time, sample.anomalyWave, show);
    payload := Input(TestProcessId, points, Some(false));
    var server := new TimeSeriesBackend();
    server.CreateOrUpdateTimeseries(TestProcessId, payload);
    stored := server.GetTimeseries(TestProcessId);
  }

  /** submit.py: the same upload under a fresh id `tsId` in the URL, with an
      empty `process_id` in the body. The record is found under `tsId`, not
      under "", and `starts` are the indices "Anomaly detected at index" is
      printed for: one per segment, in increasing order. */
  method SubmitSample(time: seq<real>, normalWave: seq<real>, draws: seq<bool>, show: real -> string, tsId: string)
    returns (sample: Sample, starts: seq<nat>, stored: Result<View<Point>, HttpError>, underBodyId: Result<View<Point>, HttpError>)
    requires |normalWave| == |time| == |draws|
    ensures |sample.anomalyWave| == |time|
    ensures stored == Success(View(tsId, ToPoints(time, sample.anomalyWave, show), false))
    ensures Values(stored.value.data) == sample.anomalyWave
    ensures tsId != "" ==> underBodyId == Failure(NotFoundAsRaised)
    ensures StartsOf(starts, draws, DefaultAnomalyDuration, |time|)
    ensures forall a, b :: 0 <= a < b < |starts| ==> starts[a] < starts[b]
  {
    sample, starts := GenerateSingleSample(time, normalWave, draws, DefaultAnomalyDuration, DefaultAnomalyDrop);
    var points := ToPoints(sample.time, sample.anomalyWave, show);
    PointsRoundTrip(sample.time, sample.anomalyWave, show);
    var payload := Input("", points, Some(false));
    var server := new TimeSeriesBackend();
    server.CreateOrUpdateTimeseries(tsId, payload);
    stored := server.GetTimeseries(tsId);
    underBodyId := server.GetTimeseries("");
  }
}
