/** The values the two in-memory time-series stores keep and return. The
    data points are a type parameter: backend.py validates them as
    (time, value) pairs, database.py stores arbitrary dicts. */
module Records {
  import opened Wrappers
  import OrderedDict

  /** A stored entry: `{"data": ..., "anomaly": ...}`. */
  datatype Record<D> = Record(data: seq<D>, anomaly: bool)

  /** The request body `TimeSeriesInput`; `None` for an omitted `anomaly`. */
  datatype Input<D> = Input(processId: string, data: seq<D>, anomaly: Option<bool>)

  /** What a get returns: `{"process_id", "data", "anomaly"}`. */
  datatype View<D> = View(processId: string, data: seq<D>, anomaly: bool)

  /** An entry of a listing: `{"process_id", "anomaly"}`. */
  datatype Summary = Summary(processId: string, anomaly: bool)

  /** The status code of the `HTTPException` a handler raises. */
  datatype HttpError = HttpError(statusCode: nat)

  /** Every 404 is raised inside the handler's `try` and re-raised by its
      `except Exception` as a 500. */
  const NotFoundAsRaised: HttpError := HttpError(500)

  /** `anomaly: Optional[bool] = False`. */
  function StoredAnomaly(given: Option<bool>): (a: bool)
    ensures given.None? ==> !a
    ensures given.Some? ==> a == given.value
  {
    given.GetOr(false)
  }

  /** The record an input is stored as. */
  function RecordOf<D>(input: Input<D>): (r: Record<D>)
    ensures r.data == input.data && r.anomaly == StoredAnomaly(input.anomaly)
  {
    Record(input.data, StoredAnomaly(input.anomaly))
  }

  /** The list comprehension over `database.items()`, keeping only entries
      whose anomaly flag is set when `anomaliesOnly`. */
  function Summaries<D>(keys: seq<string>, records: map<string, Record<D>>, anomaliesOnly: bool): (r: seq<Summary>)
    requires forall k :: k in keys ==> k in records
    ensures |r| <= |keys|
    ensures forall s :: s in r ==>
      s.processId in keys && s.anomaly == records[s.processId].anomaly && (anomaliesOnly ==> s.anomaly)
    ensures forall k :: k in keys && (!anomaliesOnly || records[k].anomaly) ==>
      Summary(k, records[k].anomaly) in r
  {
    if |keys| == 0 then []
    else
      var k := keys[0];
      var rest := Summaries(keys[1..], records, anomaliesOnly);
      assert forall x :: x in keys[1..] ==> x in keys;
      if !anomaliesOnly || records[k].anomaly then [Summary(k, records[k].anomaly)] + rest else rest
  }

  /** Unfiltered, the listing has one entry per key, in key order. */
  lemma {:induction false} SummariesUnfiltered<D>(keys: seq<string>, records: map<string, Record<D>>)
    requires forall k :: k in keys ==> k in records
    ensures |Summaries(keys, records, false)| == |keys|
    ensures forall i :: 0 <= i < |keys| ==>
      Summaries(keys, records, false)[i] == Summary(keys[i], records[keys[i]].anomaly)
  {
    if |keys| > 0 {
      SummariesUnfiltered(keys[1..], records);
    }
  }

  /** Filtered, the listing is the unfiltered one with the normal entries
      dropped. */
  lemma {:induction false} SummariesFiltered<D>(keys: seq<string>, records: map<string, Record<D>>)
    requires forall k :: k in keys ==> k in records
    ensures Summaries(keys, records, true) == OnlyAnomalies(Summaries(keys, records, false))
  {
    if |keys| > 0 {
      SummariesFiltered(keys[1..], records);
      var head := Summary(keys[0], records[keys[0]].anomaly);
      assert Summaries(keys, records, false) == [head] + Summaries(keys[1..], records, false);
      assert OnlyAnomalies([head] + Summaries(keys[1..], records, false))
          == (if head.anomaly then [head] else []) + OnlyAnomalies(Summaries(keys[1..], records, false));
    }
  }

  function OnlyAnomalies(ss: seq<Summary>): (r: seq<Summary>)
  {
    if |ss| == 0 then []
    else (if ss[0].anomaly then [ss[0]] else []) + OnlyAnomalies(ss[1..])
  }

  /** The listing of a whole store. */
  function Listing<D>(d: OrderedDict.Dict<Record<D>>, anomaliesOnly: bool): (r: seq<Summary>)
    requires OrderedDict.Valid(d)
    ensures |r| <= |d.keys|
    ensures forall s :: s in r ==>
      s.processId in d.values && s.anomaly == d.values[s.processId].anomaly && (anomaliesOnly ==> s.anomaly)
    ensures forall k :: k in d.values && (!anomaliesOnly || d.values[k].anomaly) ==>
      Summary(k, d.values[k].anomaly) in r
  {
    Summaries(d.keys, d.values, anomaliesOnly)
  }
}
