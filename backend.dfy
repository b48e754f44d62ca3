/** The FastAPI time-series store of backend.py: a module-level dict keyed by
    the path's process id, with put, get, filtered list, patch of the
    anomaly flag and delete. */
module Backend {
  import opened Wrappers
  import opened Records
  import OrderedDict

  /** `TimeSeriesData`: one validated (time, value) point. */
  datatype Point = Point(time: string, value: real)

  /** The module-level `database` and the handlers that use it. */
  class TimeSeriesBackend {
    var database: OrderedDict.Dict<Record<Point>>

    ghost predicate Valid()
      reads this
    {
      OrderedDict.Valid(database)
    }

    /** `database = {}` */
    constructor ()
      ensures Valid() && database == OrderedDict.Empty()
    {
      database := OrderedDict.Empty();
    }

    /** `PUT /timeseries/{process_id}`: the record under the PATH id is
        replaced by the body's data and anomaly flag; the body's own
        `process_id` is not used. */
    method CreateOrUpdateTimeseries(processId: string, tsInput: Input<Point>)
      requires Valid()
      modifies this
      ensures Valid()
      ensures database.values == old(database.values)[processId := RecordOf(tsInput)]
      ensures database == OrderedDict.Assign(old(database), processId, RecordOf(tsInput))
    {
      database := OrderedDict.Assign(database, processId, RecordOf(tsInput));
    }

    /** `GET /timeseries/{process_id}`: the stored data and flag under the
        requested id, or a 500 when the id is absent. */
    function GetTimeseries(processId: string): (r: Result<View<Point>, HttpError>)
      reads this
      ensures r.Failure? <==> processId !in database.values
      ensures r.Failure? ==> r.error == NotFoundAsRaised
      ensures r.Success? ==>
        r.value == View(processId, database.values[processId].data, database.values[processId].anomaly)
    {
      if processId !in database.values then Failure(NotFoundAsRaised)
      else
        var record := database.values[processId];
        Success(View(processId, record.data, record.anomaly))
    }

    /** `GET /timeseries/?anomalies_only=...`: (id, flag) of every record in
        insertion order, or of only the anomalous ones. */
    function ListTimeseries(anomaliesOnly: bool): (r: seq<Summary>)
      requires Valid()
      reads this
      ensures forall s :: s in r ==>
        s.processId in database.values && s.anomaly == database.values[s.processId].anomaly
        && (anomaliesOnly ==> s.anomaly)
      ensures forall k :: k in database.values && (!anomaliesOnly || database.values[k].anomaly) ==>
        Summary(k, database.values[k].anomaly) in r
      ensures !anomaliesOnly ==> |r| == |database.keys| && forall i :: 0 <= i < |r| ==>
        r[i] == Summary(database.keys[i], database.values[database.keys[i]].anomaly)
      ensures anomaliesOnly ==> r == OnlyAnomalies(Listing(database, false))
    {
      SummariesUnfiltered(database.keys, database.values);
      SummariesFiltered(database.keys, database.values);
      Listing(database, anomaliesOnly)
    }

    /** `PATCH /timeseries/{process_id}/anomaly`: only the flag of that record
        changes; an absent id is a 500 and nothing changes. */
    method UpdateAnomalyStatus(processId: string, anomaly: bool) returns (r: Result<(), HttpError>)
      requires Valid()
      modifies this
      ensures Valid()
      ensures r.Failure? <==> processId !in old(database.values)
      ensures r.Failure? ==> r.error == NotFoundAsRaised && database == old(database)
      ensures r.Success? ==>
        && database.keys == old(database.keys)
        && database.values == old(database.values)[processId := old(database.values)[processId].(anomaly := anomaly)]
    {
      if processId !in database.values {
        return Failure(NotFoundAsRaised);
      }
      var record := database.values[processId];
      database := OrderedDict.Assign(database, processId, record.(anomaly := anomaly));
      r := Success(());
    }

    /** `DELETE /timeseries/{process_id}`: exactly that key goes; an absent id
        is a 500 and nothing changes. */
    method DeleteTimeseries(processId: string) returns (r: Result<(), HttpError>)
      requires Valid()
      modifies this
      ensures Valid()
      ensures r.Failure? <==> processId !in old(database.values)
      ensures r.Failure? ==> r.error == NotFoundAsRaised && database == old(database)
      ensures r.Success? ==>
        && database.values == old(database.values) - {processId}
        && database == OrderedDict.Remove(old(database), processId)
    {
      if processId !in database.values {
        return Failure(NotFoundAsRaised);
      }
      database := OrderedDict.Remove(database, processId);
      r := Success(());
    }
  }

  /** Put then get returns the stored data and flag under the path id. The
      body's `process_id`, when different, names nothing. */
  method PutThenGet(processId: string, tsInput: Input<Point>)
    returns (atPath: Result<View<Point>, HttpError>, atBodyId: Result<View<Point>, HttpError>)
    ensures atPath == Success(View(processId, tsInput.data, StoredAnomaly(tsInput.anomaly)))
    ensures tsInput.processId != processId ==> atBodyId == Failure(NotFoundAsRaised)
  {
    var backend := new TimeSeriesBackend();
    backend.CreateOrUpdateTimeseries(processId, tsInput);
    atPath := backend.GetTimeseries(processId);
    atBodyId := backend.GetTimeseries(tsInput.processId);
  }

  /** Patching twice with the same flag leaves the same state as patching
      once, and the data are untouched. */
  method PatchTwice(processId: string, tsInput: Input<Point>, anomaly: bool)
    returns (once: Result<View<Point>, HttpError>, twice: Result<View<Point>, HttpError>)
    ensures once == twice == Success(View(processId, tsInput.data, anomaly))
  {
    var backend := new TimeSeriesBackend();
    backend.CreateOrUpdateTimeseries(processId, tsInput);
    var _ := backend.UpdateAnomalyStatus(processId, anomaly);
    once := backend.GetTimeseries(processId);
    var _ := backend.UpdateAnomalyStatus(processId, anomaly);
    twice := backend.GetTimeseries(processId);
  }

  /** After a delete the id is gone and the listing no longer has it; a
      second delete fails. */
  method DeleteThenGet(processId: string, tsInput: Input<Point>)
    returns (got: Result<View<Point>, HttpError>, listed: seq<Summary>, again: Result<(), HttpError>)
    ensures got == Failure(NotFoundAsRaised)
    ensures listed == []
    ensures again == Failure(NotFoundAsRaised)
  {
    var backend := new TimeSeriesBackend();
    backend.CreateOrUpdateTimeseries(processId, tsInput);
    var _ := backend.DeleteTimeseries(processId);
    got := backend.GetTimeseries(processId);
    listed := backend.ListTimeseries(false);
    again := backend.DeleteTimeseries(processId);
  }

  /** Two puts under different ids list both, in put order; only the
      anomalous one is listed with `anomalies_only`. */
  method ListInPutOrder(first: string, second: string, data: seq<Point>)
    returns (all: seq<Summary>, anomalies: seq<Summary>)
    requires first != second
    ensures all == [Summary(first, true), Summary(second, false)]
    ensures anomalies == [Summary(first, true)]
  {
    var backend := new TimeSeriesBackend();
    backend.CreateOrUpdateTimeseries(first, Input(first, data, Some(true)));
    backend.CreateOrUpdateTimeseries(second, Input(second, data, None));
    var d := backend.database;
    assert d.keys == [first, second];
    assert d.values[first].anomaly && !d.values[second].anomaly;
    all := backend.ListTimeseries(false);
    assert all == [Summary(first, true), Summary(second, false)] by {
      assert |all| == 2 && all[0] == Summary(first, true) && all[1] == Summary(second, false);
    }
    anomalies := backend.ListTimeseries(true);
    assert anomalies == OnlyAnomalies(all);
    assert OnlyAnomalies(all[1..]) == [] by {
      assert all[1..][1..] == [];
    }
    assert OnlyAnomalies(all) == [Summary(first, true)] + OnlyAnomalies(all[1..]);
  }
}
